/**
 Partitioned relationship comparison, from app/analysis/relationship_comparator.py:
 a union-find over possible shared end-point pairs, batch planning, and the
 comparison that validates each batch alone and then all decisions together.
 */
module RelationshipPartition {
  import opened Options
  import opened RelationshipValidation
  import opened Sequences
  import Graph

  // ----- possible pairs --------------------------------------------------------

  predicate HasDistinctPair(sources: set<Node>, targets: set<Node>) {
    sources != {} && targets != {} && !(|sources| == 1 && |targets| == 1 && sources == targets)
  }

  predicate PossiblePairsOverlap(l: Observation, r: Observation) {
    || HasDistinctPair(l.sources * r.sources, l.targets * r.targets)
    || HasDistinctPair(l.sources * r.targets, l.targets * r.sources)
  }

  // The unordered pair {a, b} is possible for the observation.
  predicate PossibleFor(o: Observation, a: Node, b: Node) {
    (a in o.sources && b in o.targets) || (b in o.sources && a in o.targets)
  }

  /** The cardinality test decides, without enumerating pairs, whether two different
      nodes can be drawn from the two sets. */
  lemma DistinctPairExists(sources: set<Node>, targets: set<Node>)
    ensures HasDistinctPair(sources, targets) <==> exists a, b :: a in sources && b in targets && a != b
  {
    if HasDistinctPair(sources, targets) {
      var a :| a in sources;
      var b :| b in targets;
      if a == b {
        if sources == {a} {
          assert targets != {a};
          var t :| t in targets && t != a;
          assert a in sources && t in targets && a != t;
        } else {
          var s :| s in sources && s != a;
          assert s in sources && b in targets && s != b;
        }
      }
    } else {
      forall a, b | a in sources && b in targets ensures a == b {
        SingletonIsUnique(sources, a);
        SingletonIsUnique(targets, b);
      }
    }
  }

  lemma SingletonIsUnique(s: set<Node>, a: Node)
    requires a in s
    ensures |s| == 1 ==> s == {a}
  {
    if |s| == 1 {
      assert |s - {a}| == 0;
    }
  }

  /** Two observations overlap exactly when some unordered pair of distinct nodes is
      possible for both. */
  lemma OverlapIsSharedPair(l: Observation, r: Observation)
    ensures PossiblePairsOverlap(l, r) <==> exists a, b :: a != b && PossibleFor(l, a, b) && PossibleFor(r, a, b)
  {
    DistinctPairExists(l.sources * r.sources, l.targets * r.targets);
    DistinctPairExists(l.sources * r.targets, l.targets * r.sources);
    if PossiblePairsOverlap(l, r) {
      if HasDistinctPair(l.sources * r.sources, l.targets * r.targets) {
        var a, b :| a in l.sources * r.sources && b in l.targets * r.targets && a != b;
        assert PossibleFor(l, a, b) && PossibleFor(r, a, b);
      } else {
        var a, b :| a in l.sources * r.targets && b in l.targets * r.sources && a != b;
        assert PossibleFor(l, a, b) && PossibleFor(r, a, b);
      }
    }
    if exists a, b :: a != b && PossibleFor(l, a, b) && PossibleFor(r, a, b) {
      var a, b :| a != b && PossibleFor(l, a, b) && PossibleFor(r, a, b);
      SharedPairOverlaps(l, r, a, b);
    }
  }

  lemma SharedPairOverlaps(l: Observation, r: Observation, a: Node, b: Node)
    requires a != b && PossibleFor(l, a, b) && PossibleFor(r, a, b)
    ensures PossiblePairsOverlap(l, r)
  {
    DistinctPairExists(l.sources * r.sources, l.targets * r.targets);
    DistinctPairExists(l.sources * r.targets, l.targets * r.sources);
    var (s, t) := if a in l.sources && b in l.targets then (a, b) else (b, a);
    assert s in l.sources && t in l.targets && s != t;
    if s in r.sources && t in r.targets {
      assert s in l.sources * r.sources && t in l.targets * r.targets;
    } else {
      assert s in l.sources * r.targets && t in l.targets * r.sources;
    }
  }

  // ----- connectedness ------------------------------------------------------------

  function OverlapLink(obs: seq<Observation>): Graph.Link {
    (i: nat, j: nat) => i < |obs| && j < |obs| && PossiblePairsOverlap(obs[i], obs[j])
  }

  ghost predicate Connected(obs: seq<Observation>, i: nat, j: nat) {
    Graph.Connected(|obs|, OverlapLink(obs), i, j)
  }

  lemma OverlapIsSymmetric(l: Observation, r: Observation)
    ensures PossiblePairsOverlap(l, r) == PossiblePairsOverlap(r, l)
  {
    assert l.sources * r.sources == r.sources * l.sources && l.targets * r.targets == r.targets * l.targets;
    OverlapIsSharedPair(l, r);
    OverlapIsSharedPair(r, l);
  }

  lemma ConnectedByOverlap(obs: seq<Observation>, i: nat, j: nat)
    requires i < |obs| && j < |obs| && PossiblePairsOverlap(obs[i], obs[j])
    ensures Connected(obs, i, j) && Connected(obs, j, i)
  {
    OverlapIsSymmetric(obs[i], obs[j]);
    Graph.ConnectedByLink(|obs|, OverlapLink(obs), i, j);
    Graph.ConnectedByLink(|obs|, OverlapLink(obs), j, i);
  }

  lemma ConnectedToItself(obs: seq<Observation>, i: nat)
    requires i < |obs|
    ensures Connected(obs, i, i)
  {
    Graph.ConnectedToSelf(|obs|, OverlapLink(obs), i);
  }

  // A labelling that is constant along links is constant on components.
  lemma LabelsFollowConnection(obs: seq<Observation>, labels: seq<nat>, i: nat, j: nat)
    requires |labels| == |obs| && i < |obs| && j < |obs| && Connected(obs, i, j)
    requires forall a, b | 0 <= a < |obs| && 0 <= b < |obs| && PossiblePairsOverlap(obs[a], obs[b]) ::
      labels[a] == labels[b]
    ensures labels[i] == labels[j]
  {
    var inside := set k: nat | k < |obs| && labels[k] == labels[i];
    Graph.ConnectedStaysInside(|obs|, OverlapLink(obs), inside, i, j);
  }

  // ----- union-find with path halving, no rank ---------------------------------------

  // rep names the root of each node's tree; depth strictly falls along parents, so
  // walking up ends although roots are not ordered by index.
  ghost predicate Forest(parents: seq<nat>, rep: seq<nat>, depth: seq<nat>) {
    && |parents| == |rep| == |depth|
    && (forall i | 0 <= i < |parents| :: parents[i] < |parents| && rep[i] < |parents|)
    && (forall i | 0 <= i < |parents| :: rep[parents[i]] == rep[i])
    && (forall i | 0 <= i < |parents| :: parents[i] == i <==> rep[i] == i)
    && (forall i | 0 <= i < |parents| :: parents[i] != i ==> depth[parents[i]] < depth[i])
  }

  lemma ForestBounds(parents: seq<nat>, rep: seq<nat>, depth: seq<nat>)
    requires Forest(parents, rep, depth)
    ensures |parents| == |rep| == |depth| && forall i | 0 <= i < |parents| :: parents[i] < |parents|
    ensures forall i | 0 <= i < |parents| :: parents[i] == i <==> rep[i] == i
  {
  }

  lemma HalvingKeepsForest(parents: seq<nat>, rep: seq<nat>, depth: seq<nat>, r: nat)
    requires Forest(parents, rep, depth) && r < |parents| && parents[r] != r
    ensures var g := parents[parents[r]];
      Forest(parents[r := g], rep, depth) && depth[g] < depth[r] && rep[g] == rep[r]
  {
  }

  method Root(parents: array<nat>, index: nat, ghost rep: seq<nat>, ghost depth: seq<nat>) returns (r: nat)
    requires index < parents.Length && Forest(parents[..], rep, depth)
    modifies parents
    ensures Forest(parents[..], rep, depth) && r == rep[index]
  {
    hide Forest;
    r := index;
    ForestBounds(parents[..], rep, depth);
    while parents[r] != r
      invariant r < parents.Length && |rep| == |depth| == parents.Length
      invariant rep[r] == rep[index] && Forest(parents[..], rep, depth)
      decreases depth[r]
    {
      ForestBounds(parents[..], rep, depth);
      ghost var before := parents[..];
      HalvingKeepsForest(before, rep, depth, r);
      parents[r] := parents[parents[r]];
      assert parents[..] == before[r := before[before[r]]];
      r := parents[r];
    }
    ForestBounds(parents[..], rep, depth);
  }

  ghost function Joined(rep: seq<nat>, from: nat, to: nat): (joined: seq<nat>)
    ensures |joined| == |rep|
  {
    seq(|rep|, i requires 0 <= i < |rep| => if rep[i] == from then to else rep[i])
  }

  ghost function Deepened(rep: seq<nat>, depth: seq<nat>, from: nat, extra: nat): (deepened: seq<nat>)
    requires |depth| == |rep|
    ensures |deepened| == |rep|
  {
    seq(|rep|, i requires 0 <= i < |rep| => if rep[i] == from then depth[i] + extra + 1 else depth[i])
  }

  lemma ForestAt(parents: seq<nat>, rep: seq<nat>, depth: seq<nat>, i: nat)
    requires Forest(parents, rep, depth) && i < |parents|
    ensures |parents| == |rep| == |depth| && parents[i] < |parents| && rep[i] < |parents|
    ensures rep[parents[i]] == rep[i] && (parents[i] == i <==> rep[i] == i)
    ensures parents[i] != i ==> depth[parents[i]] < depth[i]
  {
  }

  lemma LinkAt(parents: seq<nat>, rep: seq<nat>, depth: seq<nat>, from: nat, to: nat, i: nat)
    requires Forest(parents, rep, depth) && |parents| == |rep| == |depth| && from < |rep| && to < |rep| && from != to
    requires rep[from] == from && rep[to] == to && i < |rep|
    ensures var linked, joined, deepened := parents[from := to], Joined(rep, from, to),
      Deepened(rep, depth, from, depth[to]);
      && linked[i] < |linked| && joined[i] < |linked| && joined[linked[i]] == joined[i]
        && (linked[i] == i <==> joined[i] == i)
      && (linked[i] != i ==> deepened[linked[i]] < deepened[i])
  {
    hide Forest;
    ForestAt(parents, rep, depth, from);
    ForestAt(parents, rep, depth, to);
    ForestAt(parents, rep, depth, i);
  }

  lemma LinkKeepsForest(parents: seq<nat>, rep: seq<nat>, depth: seq<nat>, from: nat, to: nat)
    requires Forest(parents, rep, depth) && from < |rep| && to < |rep| && from != to
    requires rep[from] == from && rep[to] == to
    ensures Forest(parents[from := to], Joined(rep, from, to), Deepened(rep, depth, from, depth[to]))
  {
    hide Joined, Deepened;
    ForestBounds(parents, rep, depth);
    var linked, joined, deepened := parents[from := to], Joined(rep, from, to), Deepened(rep, depth, from, depth[to]);
    forall i: nat | i < |parents|
      ensures linked[i] < |linked| && joined[i] < |linked| && joined[linked[i]] == joined[i]
        && (linked[i] == i <==> joined[i] == i)
      ensures linked[i] != i ==> deepened[linked[i]] < deepened[i]
    {
      LinkAt(parents, rep, depth, from, to, i);
    }
  }

  // Same tree only if connected; every link seen so far joins its ends.
  ghost predicate Explains(rep: seq<nat>, obs: seq<Observation>) {
    |rep| == |obs| && forall x, y :: 0 <= x < |rep| && 0 <= y < |rep| && rep[x] == rep[y] ==> Connected(obs, x, y)
  }

  ghost predicate Joins(rep: seq<nat>, obs: seq<Observation>, i: nat, j: nat) {
    && |rep| == |obs|
    && forall a, b :: 0 <= b < a < |obs| && (a < i || (a == i && b < j)) && PossiblePairsOverlap(obs[a], obs[b]) ==>
      rep[a] == rep[b]
  }

  lemma LinkExplains(rep: seq<nat>, obs: seq<Observation>, i: nat, j: nat)
    requires Explains(rep, obs) && i < |obs| && j < |obs| && PossiblePairsOverlap(obs[i], obs[j])
    ensures Explains(Joined(rep, rep[i], rep[j]), obs)
  {
    var joined := Joined(rep, rep[i], rep[j]);
    ConnectedByOverlap(obs, i, j);
    forall x, y | 0 <= x < |rep| && 0 <= y < |rep| && joined[x] == joined[y] ensures Connected(obs, x, y) {
      if rep[x] != rep[y] {
        if rep[x] == rep[i] {
          Graph.ConnectedThrough(|obs|, OverlapLink(obs), x, i, j);
          Graph.ConnectedThrough(|obs|, OverlapLink(obs), x, j, y);
        } else {
          Graph.ConnectedThrough(|obs|, OverlapLink(obs), x, j, i);
          Graph.ConnectedThrough(|obs|, OverlapLink(obs), x, i, y);
        }
      }
    }
  }

  method BuildForest(obs: seq<Observation>, parents: array<nat>) returns (ghost rep: seq<nat>, ghost depth: seq<nat>)
    requires parents.Length == |obs| && forall i | 0 <= i < |obs| :: parents[i] == i
    modifies parents
    ensures Forest(parents[..], rep, depth) && Explains(rep, obs) && Joins(rep, obs, |obs|, 0)
  {
    rep, depth := parents[..], seq(|obs|, i => 0);
    forall x, y | 0 <= x < |obs| && 0 <= y < |obs| && rep[x] == rep[y] ensures Connected(obs, x, y) {
      ConnectedToItself(obs, x);
    }
    for index := 0 to |obs|
      invariant Forest(parents[..], rep, depth) && Explains(rep, obs) && Joins(rep, obs, index, 0)
    {
      for previous := 0 to index
        invariant Forest(parents[..], rep, depth) && Explains(rep, obs) && Joins(rep, obs, index, previous)
      {
        rep, depth := JoinPair(obs, parents, index, previous, rep, depth);
      }
    }
  }

  // One step of the double loop.
  method JoinPair(obs: seq<Observation>, parents: array<nat>, index: nat, previous: nat, ghost rep0: seq<nat>,
                  ghost depth0: seq<nat>)
    returns (ghost rep: seq<nat>, ghost depth: seq<nat>)
    requires parents.Length == |obs| && previous < index < |obs|
    requires Forest(parents[..], rep0, depth0) && Explains(rep0, obs) && Joins(rep0, obs, index, previous)
    modifies parents
    ensures Forest(parents[..], rep, depth) && Explains(rep, obs) && Joins(rep, obs, index, previous + 1)
  {
    hide Forest, Explains, PossiblePairsOverlap;
    rep, depth := rep0, depth0;
    ForestBounds(parents[..], rep, depth);
    var currentRoot := Root(parents, index, rep, depth);
    var previousRoot := Root(parents, previous, rep, depth);
    if currentRoot != previousRoot && PossiblePairsOverlap(obs[index], obs[previous]) {
      ghost var before := parents[..];
      RepsAreRoots(before, rep, depth, index);
      RepsAreRoots(before, rep, depth, previous);
      LinkKeepsForest(before, rep, depth, currentRoot, previousRoot);
      LinkExplains(rep, obs, index, previous);
      parents[currentRoot] := previousRoot;
      assert parents[..] == before[currentRoot := previousRoot];
      rep, depth := Joined(rep, currentRoot, previousRoot), Deepened(rep, depth, currentRoot, depth[previousRoot]);
    }
  }

  lemma {:induction false} RepsAreRoots(parents: seq<nat>, rep: seq<nat>, depth: seq<nat>, i: nat)
    requires Forest(parents, rep, depth) && i < |rep|
    ensures rep[i] < |rep| && rep[rep[i]] == rep[i]
    decreases depth[i]
  {
    if parents[i] != i {
      RepsAreRoots(parents, rep, depth, parents[i]);
    }
  }

  /** When every link joins, trees are exactly the connected components. */
  lemma TreesAreComponents(rep: seq<nat>, obs: seq<Observation>, i: nat, j: nat)
    requires Explains(rep, obs) && Joins(rep, obs, |obs|, 0) && i < |obs| && j < |obs|
    ensures rep[i] == rep[j] <==> Connected(obs, i, j)
  {
    forall a, b | 0 <= a < |obs| && 0 <= b < |obs| && PossiblePairsOverlap(obs[a], obs[b]) ensures rep[a] == rep[b] {
      OverlapIsSymmetric(obs[a], obs[b]);
    }
    if Connected(obs, i, j) {
      LabelsFollowConnection(obs, rep, i, j);
    }
  }

  // ----- components ------------------------------------------------------------------

  // A group lists, in order, indices below n whose tree has root r.
  ghost predicate GroupOf(group: seq<nat>, r: nat, rep: seq<nat>, n: nat)
    requires n <= |rep|
  {
    group != [] && Ascending(group) && forall i | i in group :: i < n && rep[i] == r
  }

  ghost predicate Holds(groups: map<nat, seq<nat>>, r: nat, i: nat) {
    r in groups && i in groups[r]
  }

  // groups[r] lists, in order, the indices below n whose tree has root r.
  ghost predicate GroupsOk(groups: map<nat, seq<nat>>, rep: seq<nat>, n: nat)
    requires n <= |rep|
  {
    && (forall r | r in groups :: GroupOf(groups[r], r, rep, n))
    && (forall i | 0 <= i < n :: Holds(groups, rep[i], i))
  }

  ghost predicate GroupedByRoot(groups: map<nat, seq<nat>>, order: seq<nat>, rep: seq<nat>, n: nat)
    requires n <= |rep|
  {
    && GroupsOk(groups, rep, n)
    && (forall r :: r in groups <==> r in order)
    && (forall i, j :: 0 <= i < j < |order| ==> order[i] != order[j])
    && HeadsAscend(groups, order)
  }

  // The groups come in the order of their first members.
  ghost predicate HeadsAscend(groups: map<nat, seq<nat>>, order: seq<nat>) {
    && (forall r | r in order :: r in groups && groups[r] != [])
    && (forall i, j :: 0 <= i < j < |order| ==> groups[order[i]][0] < groups[order[j]][0])
  }

  lemma RootOfMember(groups: map<nat, seq<nat>>, rep: seq<nat>, n: nat, r: nat, i: nat)
    requires n <= |rep| && GroupsOk(groups, rep, n) && r in groups && i in groups[r]
    ensures i < n && rep[i] == r
  {
    assert GroupOf(groups[r], r, rep, n);
  }

  lemma AscendingMore(held: seq<nat>, n: nat)
    requires Ascending(held) && forall i | i in held :: i < n
    ensures Ascending(held + [n])
  {
    forall i, j | 0 <= i < j < |held + [n]| ensures (held + [n])[i] < (held + [n])[j] {
      assert held[i] in held;
    }
  }

  lemma EmptyAscends()
    ensures Ascending([])
  {
  }

  // The group that index n joins, as it was before.
  function HeldBy(groups: map<nat, seq<nat>>, r: nat): seq<nat> {
    if r in groups then groups[r] else []
  }

  lemma GroupStays(group: seq<nat>, r: nat, rep: seq<nat>, n: nat)
    requires n < |rep| && GroupOf(group, r, rep, n)
    ensures GroupOf(group, r, rep, n + 1)
  {
    hide Ascending;
  }

  // The group of the root of n takes n as its last member.
  lemma GroupTakes(held: seq<nat>, rep: seq<nat>, n: nat)
    requires n < |rep| && (held == [] || GroupOf(held, rep[n], rep, n))
    ensures GroupOf(held + [n], rep[n], rep, n + 1)
  {
    hide Ascending;
    EmptyAscends();
    AscendingMore(held, n);
  }

  lemma GroupsOneMore(groups: map<nat, seq<nat>>, rep: seq<nat>, n: nat)
    requires n < |rep| && GroupsOk(groups, rep, n)
    ensures GroupsOk(groups[rep[n] := HeldBy(groups, rep[n]) + [n]], rep, n + 1)
  {
    hide GroupOf;
    var r, held := rep[n], HeldBy(groups, rep[n]);
    var groups' := groups[r := held + [n]];
    GroupTakes(held, rep, n);
    forall q | q in groups' ensures GroupOf(groups'[q], q, rep, n + 1) {
      if q != r { GroupStays(groups[q], q, rep, n); }
    }
    forall i | 0 <= i < n + 1 ensures Holds(groups', rep[i], i) {
      if i < n { assert Holds(groups, rep[i], i); }
    }
  }

  lemma GroupOneMore(groups: map<nat, seq<nat>>, order: seq<nat>, rep: seq<nat>, n: nat)
    requires n < |rep| && GroupedByRoot(groups, order, rep, n)
    ensures GroupedByRoot(groups[rep[n] := HeldBy(groups, rep[n]) + [n]],
                          if rep[n] in groups then order else order + [rep[n]], rep, n + 1)
  {
    hide GroupsOk, HeadsAscend;
    GroupsOneMore(groups, rep, n);
    HeadsOneMore(groups, order, rep, n);
    var r, order' := rep[n], if rep[n] in groups then order else order + [rep[n]];
    forall i, j | 0 <= i < j < |order'| ensures order'[i] != order'[j] {
      assert order[i] in order;
    }
  }

  lemma HeadsOneMore(groups: map<nat, seq<nat>>, order: seq<nat>, rep: seq<nat>, n: nat)
    requires n < |rep| && GroupedByRoot(groups, order, rep, n)
    ensures HeadsAscend(groups[rep[n] := HeldBy(groups, rep[n]) + [n]], if rep[n] in groups then order
      else order + [rep[n]])
  {
    hide GroupsOk;
    forall r | r in order ensures groups[r][0] < n {
      RootOfMember(groups, rep, n, r, groups[r][0]);
    }
  }

  method GroupByRoot(obs: seq<Observation>, parents: array<nat>, ghost rep: seq<nat>, ghost depth: seq<nat>)
    returns (groups: map<nat, seq<nat>>, order: seq<nat>)
    requires parents.Length == |obs| && Forest(parents[..], rep, depth)
    modifies parents
    ensures |rep| == |obs| && GroupedByRoot(groups, order, rep, |obs|)
  {
    hide Forest, GroupedByRoot;
    ForestBounds(parents[..], rep, depth);
    groups, order := map[], [];
    NothingGrouped(rep);
    for index := 0 to |obs|
      invariant Forest(parents[..], rep, depth) && GroupedByRoot(groups, order, rep, index)
    {
      var r := Root(parents, index, rep, depth);
      GroupOneMore(groups, order, rep, index);
      if r in groups {
        groups := groups[r := groups[r] + [index]];
      } else {
        groups, order := groups[r := [index]], order + [r];
        assert [] + [index] == [index];
      }
    }
  }

  lemma NothingGrouped(rep: seq<nat>)
    ensures GroupedByRoot(map[], [], rep, 0)
  {
  }

  ghost predicate ConnectedToNew(obs: seq<Observation>, i: nat) {
    exists j: nat :: j < |obs| && obs[j].ref.New? && Connected(obs, i, j)
  }

  ghost predicate InSome(classes: seq<seq<nat>>, i: nat) {
    exists k :: 0 <= k < |classes| && i in classes[k]
  }

  // The classes are the connected components that hold a new observation, in the order of their first members.
  ghost predicate AreComponents(classes: seq<seq<nat>>, obs: seq<Observation>) {
    && (forall k, i | 0 <= k < |classes| && i in classes[k] :: i < |obs|)
    && (forall k | 0 <= k < |classes| :: classes[k] != [] && Ascending(classes[k]))
    && (forall k, l, i, j | 0 <= k < |classes| && 0 <= l < |classes| && i in classes[k] && j in classes[l] ::
      k == l <==> Connected(obs, i, j))
    && FirstsAscend(classes)
    && (forall i: nat | i < |obs| :: ConnectedToNew(obs, i) <==> InSome(classes, i))
  }

  function Pick(obs: seq<Observation>, indices: seq<nat>): (picked: seq<Observation>)
    requires forall i | i in indices :: i < |obs|
    ensures |picked| == |indices|
  {
    seq(|indices|, m requires 0 <= m < |indices| => assert indices[m] in indices; obs[indices[m]])
  }

  // The groups that hold a new observation, in order of their first member.
  method SelectClasses(obs: seq<Observation>, groups: map<nat, seq<nat>>, order: seq<nat>)
    returns (classes: seq<seq<nat>>, ghost roots: seq<nat>)
    requires forall i, j :: 0 <= i < j < |order| ==> order[i] != order[j]
    requires HeadsAscend(groups, order)
    ensures FirstsAscend(classes)
    ensures |classes| == |roots| && Selected(roots, order, groups, obs)
    ensures forall m | 0 <= m < |roots| :: roots[m] in groups && classes[m] == groups[roots[m]]
    ensures forall m, l :: 0 <= m < l < |roots| ==> roots[m] != roots[l]
  {
    hide Selected, HasNew, Ascending, HeadsAscend;
    classes, roots := [], [];
    ghost var at: seq<nat> := [];
    NothingSelected(groups, obs);
    assert order[..0] == [];
    EmptyAscends();
    for k := 0 to |order|
      invariant |roots| == |classes| == |at| && Selected(roots, order[..k], groups, obs)
      invariant Ascending(at) && forall m | 0 <= m < |at| :: at[m] < k && roots[m] == order[at[m]]
      invariant forall m | 0 <= m < |roots| :: roots[m] in groups && classes[m] == groups[roots[m]]
    {
      var r := order[k];
      SelectedOneMore(roots, order, k, groups, obs);
      InGroups(groups, order, r);
      var chosen := exists i | i in groups[r] :: i < |obs| && obs[i].ref.New?;
      assert chosen == HasNew(r, groups, obs) by { NewIsChosen(r, groups, obs); }
      if chosen {
        AscendingMore(at, k);
        classes, roots, at := classes + [groups[r]], roots + [r], at + [k];
      }
    }
    assert order[..|order|] == order;
    SelectionAscends(classes, roots, order, at, groups);
  }

  lemma NothingSelected(groups: map<nat, seq<nat>>, obs: seq<Observation>)
    ensures Selected([], [], groups, obs)
  {
  }

  lemma InGroups(groups: map<nat, seq<nat>>, order: seq<nat>, r: nat)
    requires HeadsAscend(groups, order) && r in order
    ensures r in groups
  {
  }

  lemma NewIsChosen(r: nat, groups: map<nat, seq<nat>>, obs: seq<Observation>)
    requires r in groups
    ensures HasNew(r, groups, obs) <==> exists i | i in groups[r] :: i < |obs| && obs[i].ref.New?
  {
  }

  lemma SelectionAscends(classes: seq<seq<nat>>, roots: seq<nat>, order: seq<nat>, at: seq<nat>,
                         groups: map<nat, seq<nat>>)
    requires HeadsAscend(groups, order) && forall i, j :: 0 <= i < j < |order| ==> order[i] != order[j]
    requires |classes| == |roots| == |at| && Ascending(at)
    requires forall m | 0 <= m < |at| :: at[m] < |order| && roots[m] == order[at[m]]
    requires forall m | 0 <= m < |roots| :: roots[m] in groups && classes[m] == groups[roots[m]]
    ensures FirstsAscend(classes) && forall m, l :: 0 <= m < l < |roots| ==> roots[m] != roots[l]
  {
    forall k | 0 <= k < |classes| ensures classes[k] != [] {
      assert order[at[k]] in order;
    }
    forall k, l | 0 <= k < l < |classes| ensures classes[k][0] < classes[l][0] && roots[k] != roots[l] {
      assert at[k] < at[l];
      assert groups[order[at[k]]][0] < groups[order[at[l]]][0];
    }
  }

  /** The union-find returns exactly the connected components of "some unordered pair
      of distinct nodes is possible for both", less those without new evidence. */
  method ComparisonClasses(obs: seq<Observation>) returns (classes: seq<seq<nat>>)
    ensures AreComponents(classes, obs)
  {
    hide AreComponents, Explains, Joins, Forest, Selected;
    var parents := new nat[|obs|](i => i);
    ghost var rep, depth;
    rep, depth := BuildForest(obs, parents);
    var groups, order := GroupByRoot(obs, parents, rep, depth);
    ghost var roots;
    classes, roots := SelectClasses(obs, groups, order);
    ClassesAreComponents(classes, roots, order, groups, rep, obs);
  }

  ghost predicate HasNew(r: nat, groups: map<nat, seq<nat>>, obs: seq<Observation>) {
    r in groups && exists i | i in groups[r] :: i < |obs| && obs[i].ref.New?
  }

  ghost predicate Selected(roots: seq<nat>, order: seq<nat>, groups: map<nat, seq<nat>>, obs: seq<Observation>) {
    forall r :: r in roots <==> r in order && HasNew(r, groups, obs)
  }

  lemma SelectedOneMore(roots: seq<nat>, order: seq<nat>, k: nat, groups: map<nat, seq<nat>>, obs: seq<Observation>)
    requires k < |order| && Selected(roots, order[..k], groups, obs)
    requires forall i, j :: 0 <= i < j < |order| ==> order[i] != order[j]
    ensures Selected(if HasNew(order[k], groups, obs) then roots + [order[k]] else roots, order[..k + 1], groups, obs)
    ensures order[k] !in roots
  {
    assert order[..k + 1] == order[..k] + [order[k]];
  }

  // Being connected is having one root.
  ghost predicate OneRoot(rep: seq<nat>, obs: seq<Observation>)
    requires |rep| == |obs|
  {
    forall i: nat, j: nat | i < |obs| && j < |obs| :: rep[i] == rep[j] <==> Connected(obs, i, j)
  }

  // Class m is the group of root m.
  ghost predicate ClassesFrom(classes: seq<seq<nat>>, roots: seq<nat>, groups: map<nat, seq<nat>>) {
    |classes| == |roots| && forall m | 0 <= m < |roots| :: roots[m] in groups && classes[m] == groups[roots[m]]
  }

  lemma RootsAreClasses(rep: seq<nat>, obs: seq<Observation>)
    requires |rep| == |obs| && Explains(rep, obs) && Joins(rep, obs, |obs|, 0)
    ensures OneRoot(rep, obs)
  {
    hide Explains, Joins, Connected;
    forall i: nat, j: nat | i < |obs| && j < |obs| ensures rep[i] == rep[j] <==> Connected(obs, i, j) {
      TreesAreComponents(rep, obs, i, j);
    }
  }

  lemma MemberOfClass(classes: seq<seq<nat>>, roots: seq<nat>, groups: map<nat, seq<nat>>, rep: seq<nat>, k: nat,
                      i: nat)
    requires GroupsOk(groups, rep, |rep|) && ClassesFrom(classes, roots, groups)
    requires k < |classes| && i in classes[k]
    ensures i < |rep| && rep[i] == roots[k]
  {
    hide GroupsOk;
    RootOfMember(groups, rep, |rep|, roots[k], i);
  }

  lemma ClassAscends(classes: seq<seq<nat>>, roots: seq<nat>, groups: map<nat, seq<nat>>, rep: seq<nat>, k: nat)
    requires GroupsOk(groups, rep, |rep|) && ClassesFrom(classes, roots, groups) && k < |classes|
    ensures classes[k] != [] && Ascending(classes[k])
  {
    hide Ascending;
    assert GroupOf(groups[roots[k]], roots[k], rep, |rep|);
  }

  lemma RootHoldsMember(groups: map<nat, seq<nat>>, rep: seq<nat>, i: nat)
    requires GroupsOk(groups, rep, |rep|) && i < |rep|
    ensures rep[i] in groups && i in groups[rep[i]]
  {
    hide GroupOf;
    assert Holds(groups, rep[i], i);
  }

  // A group is selected exactly if it holds an index connected to a new observation.
  lemma SelectedIsConnected(roots: seq<nat>, order: seq<nat>, groups: map<nat, seq<nat>>, rep: seq<nat>,
                            obs: seq<Observation>, i: nat)
    requires |rep| == |obs| && OneRoot(rep, obs) && GroupedByRoot(groups, order, rep, |obs|)
    requires Selected(roots, order, groups, obs) && i < |obs|
    ensures ConnectedToNew(obs, i) <==> rep[i] in roots
  {
    hide Connected, GroupsOk, HeadsAscend;
    RootHoldsMember(groups, rep, i);
    if ConnectedToNew(obs, i) {
      var j: nat :| j < |obs| && obs[j].ref.New? && Connected(obs, i, j);
      RootHoldsMember(groups, rep, j);
    }
    if rep[i] in roots {
      var j :| j in groups[rep[i]] && j < |obs| && obs[j].ref.New?;
      RootOfMember(groups, rep, |rep|, rep[i], j);
      assert Connected(obs, i, j);
    }
  }

  lemma SomeIsSelected(classes: seq<seq<nat>>, roots: seq<nat>, groups: map<nat, seq<nat>>, rep: seq<nat>, i: nat)
    requires GroupsOk(groups, rep, |rep|) && ClassesFrom(classes, roots, groups) && i < |rep|
    ensures InSome(classes, i) <==> rep[i] in roots
  {
    hide GroupsOk;
    RootHoldsMember(groups, rep, i);
    if InSome(classes, i) {
      var k :| 0 <= k < |classes| && i in classes[k];
      MemberOfClass(classes, roots, groups, rep, k, i);
    }
    if rep[i] in roots {
      var k :| 0 <= k < |roots| && roots[k] == rep[i];
      assert i in classes[k];
    }
  }

  lemma ClassesSplit(classes: seq<seq<nat>>, roots: seq<nat>, groups: map<nat, seq<nat>>, rep: seq<nat>,
                     obs: seq<Observation>, k: nat, l: nat, i: nat, j: nat)
    requires |rep| == |obs| && OneRoot(rep, obs) && GroupsOk(groups, rep, |rep|) && ClassesFrom(classes, roots, groups)
    requires forall m, l :: 0 <= m < l < |roots| ==> roots[m] != roots[l]
    requires k < |classes| && l < |classes| && i in classes[k] && j in classes[l]
    ensures k == l <==> Connected(obs, i, j)
  {
    hide GroupsOk, Connected;
    MemberOfClass(classes, roots, groups, rep, k, i);
    MemberOfClass(classes, roots, groups, rep, l, j);
  }

  lemma ClassesAreComponents(classes: seq<seq<nat>>, roots: seq<nat>, order: seq<nat>, groups: map<nat, seq<nat>>,
                             rep: seq<nat>, obs: seq<Observation>)
    requires |rep| == |obs| && Explains(rep, obs) && Joins(rep, obs, |obs|, 0)
    requires GroupedByRoot(groups, order, rep, |obs|) && Selected(roots, order, groups, obs)
    requires ClassesFrom(classes, roots, groups)
    requires (forall m, l :: 0 <= m < l < |roots| ==> roots[m] != roots[l]) && FirstsAscend(classes)
    ensures AreComponents(classes, obs)
  {
    hide Explains, Joins, Connected, ConnectedToNew, InSome, ClassesFrom, Ascending, FirstsAscend, Selected, GroupsOk,
      HeadsAscend;
    RootsAreClasses(rep, obs);
    forall k, i | 0 <= k < |classes| && i in classes[k] ensures i < |obs| {
      MemberOfClass(classes, roots, groups, rep, k, i);
    }
    forall k | 0 <= k < |classes| ensures classes[k] != [] && Ascending(classes[k]) {
      ClassAscends(classes, roots, groups, rep, k);
    }
    forall k, l, i: nat, j: nat | 0 <= k < |classes| && 0 <= l < |classes| && i in classes[k] && j in classes[l]
      ensures k == l <==> Connected(obs, i, j)
    {
      ClassesSplit(classes, roots, groups, rep, obs, k, l, i, j);
    }
    forall i: nat | i < |obs| ensures ConnectedToNew(obs, i) <==> InSome(classes, i) {
      SelectedIsConnected(roots, order, groups, rep, obs, i);
      SomeIsSelected(classes, roots, groups, rep, i);
    }
  }

  // ----- planning and comparing ----------------------------------------------------------

  function PickAll(obs: seq<Observation>, classes: seq<seq<nat>>): seq<seq<Observation>>
    requires forall k, i | 0 <= k < |classes| && i in classes[k] :: i < |obs|
  {
    seq(|classes|, k requires 0 <= k < |classes| => Pick(obs, classes[k]))
  }

  lemma PickMembers(obs: seq<Observation>, indices: seq<nat>, o: Observation) returns (i: nat)
    requires (forall i | i in indices :: i < |obs|) && o in Pick(obs, indices)
    ensures i in indices && obs[i] == o
  {
    var m :| 0 <= m < |indices| && Pick(obs, indices)[m] == o;
    i := indices[m];
  }

  /** Components share no observation and no pinned pair, and hold every new observation. */
  lemma ComponentsAreSeparated(c: Context, classes: seq<seq<nat>>)
    requires ValidContext(c) && AreComponents(classes, All(c))
    ensures var components := PickAll(All(c), classes);
      && PairwiseSeparated(components) && InContext(components, c)
      && forall o | o in c.observations :: exists k :: 0 <= k < |components| && o in components[k]
  {
    hide Connected;
    var components := PickAll(All(c), classes);
    forall k, l | 0 <= k < l < |components| ensures Separated(components[k], components[l]) {
      forall o: Observation, q: Observation | o in components[k] && q in components[l]
        ensures o.ref != q.ref && forall a, b | Pins(o, a, b) && Pins(q, a, b) :: a == b
      {
        var i := PickMembers(All(c), classes[k], o);
        var j := PickMembers(All(c), classes[l], q);
        assert !Connected(All(c), i, j);
        ConnectedToItself(All(c), i);
        if PossiblePairsOverlap(o, q) { ConnectedByOverlap(All(c), i, j); }
        forall a, b | Pins(o, a, b) && Pins(q, a, b) ensures a == b {
          if a != b { SharedPairOverlaps(o, q, a, b); }
        }
      }
    }
    forall k, o: Observation | 0 <= k < |components| && o in components[k] ensures o in All(c) {
      var i := PickMembers(All(c), classes[k], o);
    }
    forall o | o in c.observations ensures exists k :: 0 <= k < |components| && o in components[k] {
      var i: nat :| i < |c.observations| && c.observations[i] == o;
      assert All(c)[i] == o;
      ConnectedToItself(All(c), i);
      assert ConnectedToNew(All(c), i);
      var k :| 0 <= k < |classes| && i in classes[k];
      var m :| 0 <= m < |classes[k]| && classes[k][m] == i;
      assert components[k][m] == o;
    }
  }

  const MAX_COMPARISON_BATCHES := 16
  const MAX_DECISIONS := 512

  function Pending(pending: seq<Observation>): seq<seq<Observation>> {
    if pending == [] then [] else [pending]
  }

  lemma SeparatedUnion(g: seq<Observation>, h: seq<Observation>, k: seq<Observation>)
    ensures Separated(g, k) && Separated(h, k) ==> Separated(g + h, k)
    ensures Separated(k, g) && Separated(k, h) ==> Separated(k, g + h)
  {
    assert RefsOf(g + h) == RefsOf(g) + RefsOf(h);
  }

  lemma MergeKeepsSeparation(xs: seq<seq<Observation>>, p: seq<Observation>, q: seq<Observation>,
                             rest: seq<seq<Observation>>)
    requires PairwiseSeparated(xs + [p] + [q] + rest)
    ensures PairwiseSeparated(xs + [p + q] + rest)
  {
    hide Separated;
    var before, after := xs + [p] + [q] + rest, xs + [p + q] + rest;
    var n := |xs|;
    forall i, j | 0 <= i < j < |after| ensures Separated(after[i], after[j]) {
      var i', j' := if i <= n then i else i + 1, if j <= n then j else j + 1;
      assert Separated(before[i'], before[j']);
      if i == n { assert Separated(before[n + 1], before[j']); SeparatedUnion(p, q, after[j]); }
      if j == n { assert Separated(before[i'], before[n + 1]); SeparatedUnion(p, q, after[i]); }
    }
  }

  ghost predicate PlanSoFar(batches: seq<seq<Observation>>, pending: seq<Observation>,
                            components: seq<seq<Observation>>, i: nat)
    requires i <= |components|
  {
    && PairwiseSeparated(batches + Pending(pending) + components[i..])
    && Flatten(batches) + pending == Flatten(components[..i])
  }

  lemma PlanGrows(batches: seq<seq<Observation>>, pending: seq<Observation>, components: seq<seq<Observation>>, i: nat)
    requires i < |components| && components[i] != [] && PlanSoFar(batches, pending, components, i)
    ensures PlanSoFar(batches, pending + components[i], components, i + 1)
  {
    hide Flatten, PairwiseSeparated;
    var q, rest := components[i], components[i + 1..];
    assert components[i..] == [q] + rest && components[..i + 1] == components[..i] + [q];
    FlattenOneMore(components[..i], q);
    assert Flatten(batches) + (pending + q) == Flatten(batches) + pending + q;
    if pending == [] {
      assert batches + Pending(pending) + ([q] + rest) == batches + [q] + rest && pending + q == q;
    } else {
      assert batches + [pending] + ([q] + rest) == batches + [pending] + [q] + rest;
      MergeKeepsSeparation(batches, pending, q, rest);
    }
  }

  lemma PlanOneMore(batches: seq<seq<Observation>>, pending: seq<Observation>, components: seq<seq<Observation>>,
                    i: nat)
    requires i < |components| && components[i] != [] && PlanSoFar(batches, pending, components, i)
    ensures PlanSoFar(batches, pending + components[i], components, i + 1)
    ensures pending != [] ==> PlanSoFar(batches + [pending], components[i], components, i + 1)
  {
    hide Flatten, PairwiseSeparated;
    PlanGrows(batches, pending, components, i);
    if pending != [] {
      var q, rest := components[i], components[i + 1..];
      assert components[i..] == [q] + rest && components[..i + 1] == components[..i] + [q];
      FlattenOneMore(components[..i], q);
      FlattenOneMore(batches, pending);
      assert batches + [pending] + ([q] + rest) == batches + [pending] + [q] + rest;
    }
  }

  // Neighbouring components are merged while they fit together.
  function Merged(c: Context, components: seq<seq<Observation>>, fits: Context -> bool,
                  pending: seq<Observation>): seq<seq<Observation>>
    decreases |components|
  {
    if components == [] then Pending(pending)
    else if pending != [] && !fits(Project(c, pending + components[0])) then
      [pending] + Merged(c, components[1..], fits, components[0])
    else Merged(c, components[1..], fits, pending + components[0])
  }

  // No plan if a component does not fit alone or too many batches are left.
  function PlanOf(c: Context, components: seq<seq<Observation>>, fits: Context -> bool): Option<seq<seq<Observation>>> {
    if (exists g | g in components :: !fits(Project(c, g)))
      || |Merged(c, components, fits, [])| > MAX_COMPARISON_BATCHES then None
    else Some(Merged(c, components, fits, []))
  }

  /** No two neighbouring batches of a plan could have been merged: the second one starts
      with a component that does not fit into the first. */
  lemma {:induction false} PlanIsTight(c: Context, components: seq<seq<Observation>>, fits: Context -> bool,
                                       pending: seq<Observation>, k: nat)
    requires (forall g | g in components :: g != []) && k + 1 < |Merged(c, components, fits, pending)|
    ensures var plan := Merged(c, components, fits, pending);
      exists g :: g in components && g <= plan[k + 1] && !fits(Project(c, plan[k] + g))
    decreases |components|
  {
    hide Project;
    var g, plan := components[0], Merged(c, components, fits, pending);
    assert g in components && forall h | h in components[1..] :: h in components;
    var rest := Merged(c, components[1..], fits, if pending != [] && !fits(Project(c, pending + g)) then g
      else pending + g);
    if pending != [] && !fits(Project(c, pending + g)) {
      if k > 0 {
        PlanIsTight(c, components[1..], fits, g, k - 1);
        assert plan[k] == rest[k - 1] && plan[k + 1] == rest[k];
        var h :| h in components[1..] && h <= rest[k] && !fits(Project(c, rest[k - 1] + h));
        assert h in components;
      } else {
        StartsWithPending(c, components[1..], fits, g);
        assert g in components && plan[1] == rest[0];
      }
    } else {
      PlanIsTight(c, components[1..], fits, pending + g, k);
      var h :| h in components[1..] && h <= rest[k + 1] && !fits(Project(c, rest[k] + h));
      assert h in components;
    }
  }

  lemma {:induction false} StartsWithPending(c: Context, components: seq<seq<Observation>>, fits: Context -> bool,
                                             pending: seq<Observation>)
    requires pending != []
    ensures var plan := Merged(c, components, fits, pending); plan != [] && pending <= plan[0]
    decreases |components|
  {
    hide Project;
    if components != [] && fits(Project(c, pending + components[0])) {
      StartsWithPending(c, components[1..], fits, pending + components[0]);
    }
  }

  lemma MergedUnfolds(c: Context, components: seq<seq<Observation>>, i: nat, fits: Context -> bool,
                      pending: seq<Observation>)
    requires i < |components|
    ensures Merged(c, components[i..], fits, pending) ==
      if pending != [] && !fits(Project(c, pending + components[i]))
        then [pending] + Merged(c, components[i + 1..], fits, components[i])
      else Merged(c, components[i + 1..], fits, pending + components[i])
  {
    assert components[i..][1..] == components[i + 1..];
  }

  /** Planning merges neighbouring components while they fit.  Every batch fits, the
      batches are still separated, and together they are the components in order. */
  method PlanBatches(c: Context, components: seq<seq<Observation>>, fits: Context -> bool)
    returns (batches: Option<seq<seq<Observation>>>)
    requires PairwiseSeparated(components) && forall g | g in components :: g != []
    ensures batches == PlanOf(c, components, fits)
    ensures batches.Some? ==>
      && |batches.value| <= MAX_COMPARISON_BATCHES
      && (forall g | g in batches.value :: fits(Project(c, g)))
      && PairwiseSeparated(batches.value) && Flatten(batches.value) == Flatten(components)
  {
    hide PlanSoFar, Merged, Project;
    var done: seq<seq<Observation>> := [];
    var pending: seq<Observation> := [];
    PlanStarts(components);
    assert components[0..] == components && [] + Merged(c, components, fits, []) == Merged(c, components, fits, []);
    for i := 0 to |components|
      invariant PlanSoFar(done, pending, components, i)
      invariant forall g | g in done :: fits(Project(c, g))
      invariant pending != [] ==> fits(Project(c, pending))
      invariant forall g | g in components[..i] :: fits(Project(c, g))
      invariant done + Merged(c, components[i..], fits, pending) == Merged(c, components, fits, [])
    {
      var g := components[i];
      assert g in components && components[..i + 1] == components[..i] + [g];
      if !fits(Project(c, g)) {
        return None;
      }
      PlanOneMore(done, pending, components, i);
      MergedUnfolds(c, components, i, fits, pending);
      assert pending == [] ==> pending + g == g;
      if pending != [] && !fits(Project(c, pending + g)) {
        assert done + ([pending] + Merged(c, components[i + 1..], fits, g)) ==
          done + [pending] + Merged(c, components[i + 1..], fits, g);
        done, pending := done + [pending], g;
      } else {
        pending := pending + g;
      }
    }
    assert components[..|components|] == components;
    PlanEnds(done, pending, components);
    MergedEnds(c, components, fits, pending);
    if pending != [] {
      done := done + [pending];
    }
    batches := if |done| > MAX_COMPARISON_BATCHES then None else Some(done);
  }

  lemma MergedEnds(c: Context, components: seq<seq<Observation>>, fits: Context -> bool, pending: seq<Observation>)
    ensures Merged(c, components[|components|..], fits, pending) == Pending(pending)
  {
  }

  lemma PlanStarts(components: seq<seq<Observation>>)
    requires PairwiseSeparated(components)
    ensures PlanSoFar([], [], components, 0)
  {
    assert [] + Pending([]) + components[0..] == components;
  }

  lemma PlanEnds(done: seq<seq<Observation>>, pending: seq<Observation>, components: seq<seq<Observation>>)
    requires PlanSoFar(done, pending, components, |components|)
    ensures PairwiseSeparated(done + Pending(pending)) && Flatten(done + Pending(pending)) == Flatten(components)
    ensures done + Pending(pending) == (if pending == [] then done else done + [pending])
  {
    assert done + Pending(pending) + components[|components|..] == done + Pending(pending);
    assert components[..|components|] == components;
    FlattenConcat(done, Pending(pending));
    assert pending != [] ==> Flatten([pending]) == pending;
  }

  datatype CompareResult =
    | Decided(decisions: seq<Decision>)
    | PlanTooLarge
    | BatchMalformed
    | BatchInvalid(reason: Reason)
    | TooManyDecisions

  // A reply inside the schema whose decisions are valid for the payload.
  ghost predicate Acceptable(payload: Context, reply: Option<seq<Decision>>) {
    reply.Some? && |reply.value| <= MAX_DECISIONS && ValidDecisions(reply.value, payload)
  }

  // One provider call on a payload; None stands for a reply outside the schema.
  method ComparePayload(payload: Context, reply: Option<seq<Decision>>) returns (r: CompareResult)
    requires ValidContext(payload)
    ensures r.Decided? || r.BatchMalformed? || r.BatchInvalid?
    ensures r.Decided? <==> Acceptable(payload, reply)
    ensures r.Decided? ==> r.decisions == reply.value
    ensures r.BatchMalformed? <==> reply.None? || |reply.value| > MAX_DECISIONS
    ensures r.BatchInvalid? ==> RejectedFor(r.reason, reply.value, payload)
  {
    if reply.None? || |reply.value| > MAX_DECISIONS {
      return BatchMalformed;
    }
    var reason := ValidateDecisions(reply.value, payload);
    r := if reason.None? then Decided(reply.value) else BatchInvalid(reason.value);
  }

  // The components that the planner starts from.
  ghost predicate ComponentsOf(components: seq<seq<Observation>>, c: Context) {
    exists classes :: AreComponents(classes, All(c)) && components == PickAll(All(c), classes)
  }

  ghost predicate AllAcceptable(c: Context, batches: seq<seq<Observation>>, provider: Context -> Option<seq<Decision>>)
  {
    forall k | 0 <= k < |batches| :: Acceptable(Project(c, batches[k]), provider(Project(c, batches[k])))
  }

  ghost function Replies(c: Context, batches: seq<seq<Observation>>,
                         provider: Context -> Option<seq<Decision>>): (dss: seq<seq<Decision>>)
    requires AllAcceptable(c, batches, provider)
    ensures |dss| == |batches|
  {
    seq(|batches|, k requires 0 <= k < |batches| => provider(Project(c, batches[k])).value)
  }

  /** The whole comparison.  For every provider behaviour, decisions come back only
      if valid against the whole frozen context.  There is no result for a combined
      validation that fails: once every batch has passed its own validation, the
      only thing left to refuse is the number of decisions. */
  method Compare(c: Context, fits: Context -> bool, provider: Context -> Option<seq<Decision>>)
    returns (r: CompareResult, ghost components: seq<seq<Observation>>)
    requires ValidContext(c)
    ensures r.Decided? ==> ValidDecisions(r.decisions, c)
    ensures c.observations == [] ==> r == Decided([])
    ensures c.observations != [] && fits(c) ==>
      && (r.Decided? <==> Acceptable(c, provider(c)))
      && (r.Decided? ==> r.decisions == provider(c).value)
    ensures c.observations != [] && !fits(c) ==>
      && ComponentsOf(components, c)
      && (var plan := PlanOf(c, components, fits);
          && (r.PlanTooLarge? <==> plan.None?)
          && (r.Decided? <==>
            plan.Some? && AllAcceptable(c, plan.value, provider)
            && |Flatten(Replies(c, plan.value, provider))| <= MAX_DECISIONS)
          && (r.Decided? ==> r.decisions == Flatten(Replies(c, plan.value, provider))))
  {
    hide ValidContext, ValidDecisions, AreComponents, PlanOf, Project, Flatten, PairwiseSeparated;
    components := [];
    if c.observations == [] {
      NothingToDecide(c);
      return Decided([]), [];
    }
    if fits(c) {
      r := ComparePayload(c, provider(c));
      return;
    }
    var classes := ComparisonClasses(All(c));
    ComponentsAreSeparated(c, classes);
    MembersAreInRange(classes, All(c));
    var parts := PickAll(All(c), classes);
    components := parts;
    ClassesAreNonempty(classes, All(c));
    var plan := PlanBatches(c, parts, fits);
    if plan.None? {
      return PlanTooLarge, components;
    }
    var batches := plan.value;
    BatchesHoldEverything(c, parts, batches);
    var decisions, dss := [], [];
    assert Flatten(dss) == [] by { NothingFlattened(); }
    for i := 0 to |batches|
      invariant |dss| == i && decisions == Flatten(dss)
      invariant forall k | 0 <= k < i :: Acceptable(Project(c, batches[k]), provider(Project(c, batches[k])))
      invariant forall k | 0 <= k < i :: dss[k] == provider(Project(c, batches[k])).value
    {
      ProjectionIsValid(c, batches[i]);
      var one := ComparePayload(Project(c, batches[i]), provider(Project(c, batches[i])));
      if !one.Decided? {
        return one, components;
      }
      FlattenOneMore(dss, one.decisions);
      decisions, dss := decisions + one.decisions, dss + [one.decisions];
    }
    assert dss == Replies(c, batches, provider);
    if |decisions| > MAX_DECISIONS {
      return TooManyDecisions, components;
    }
    GroupwiseValidityComposes(dss, c, batches);
    var reason := ValidateDecisions(decisions, c);
    if reason.Some? {
      assert false;  // the combined validation has nothing left to refuse
    }
    r := Decided(decisions);
  }

  lemma NothingFlattened()
    ensures Flatten<Decision>([]) == []
  {
  }

  lemma NothingToDecide(c: Context)
    requires ValidContext(c) && c.observations == []
    ensures ValidDecisions([], c)
  {
  }

  lemma MembersAreInRange(classes: seq<seq<nat>>, obs: seq<Observation>)
    requires AreComponents(classes, obs)
    ensures forall k, i | 0 <= k < |classes| && i in classes[k] :: i < |obs|
  {
  }

  lemma ClassesAreNonempty(classes: seq<seq<nat>>, obs: seq<Observation>)
    requires AreComponents(classes, obs)
    ensures forall g | g in PickAll(obs, classes) :: g != []
  {
  }

  lemma BatchesHoldEverything(c: Context, components: seq<seq<Observation>>, batches: seq<seq<Observation>>)
    requires Flatten(batches) == Flatten(components) && InContext(components, c)
    requires forall o | o in c.observations :: exists k :: 0 <= k < |components| && o in components[k]
    ensures InContext(batches, c)
    ensures forall o | o in c.observations :: exists k :: 0 <= k < |batches| && o in batches[k]
  {
    FlattenMembers(components);
    FlattenMembers(batches);
    forall k, o | 0 <= k < |batches| && o in batches[k] ensures o in All(c) {
      assert o in Flatten(batches);
      var l :| 0 <= l < |components| && o in components[l];
    }
    forall o | o in c.observations ensures exists k :: 0 <= k < |batches| && o in batches[k] {
      var l :| 0 <= l < |components| && o in components[l];
      assert o in Flatten(components);
    }
  }
}
