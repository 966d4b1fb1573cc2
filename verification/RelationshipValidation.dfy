/**
 Validation of relationship decisions against a frozen episode context, from
 app/analysis/relationship_comparator.py, and the projection of a context onto
 some of its observations.

 `ValidDecisions` says declaratively what the one-pass validator decides; the
 method at the end is that pass.
 */
module RelationshipValidation {
  import opened Options
  import opened Sequences

  // ----- the frozen context ---------------------------------------------------

  type Node = nat

  type Axis(==, !new)

  type Kind(==, !new)

  // A display text, and whether a UUID or local-reference pattern matches in it.
  datatype Text = Text(body: string, leaksReference: bool)

  datatype ObservationRef = New(number: nat) | Held(number: nat)

  // The possible end points of an observation.
  datatype Observation = Observation(ref: ObservationRef, sources: set<Node>, targets: set<Node>)

  datatype Direction = DIRECTED | MUTUAL | UNDIRECTED

  datatype Relationship = Relationship(
    ref: nat, source: Node, target: Node, axis: Axis, kind: Kind, direction: Direction,
    active: bool, labelText: Text, summaryText: Text)

  datatype Context = Context(relationships: seq<Relationship>, observations: seq<Observation>, held: seq<Observation>)

  datatype Operation = ADD | MERGE | UPDATE | END | EXCLUDE | HOLD

  datatype Decision = Decision(
    observationRefs: seq<ObservationRef>, operation: Operation, relationshipRef: Option<nat>,
    source: Option<Node>, target: Option<Node>, axis: Option<Axis>, kind: Option<Kind>,
    labelText: Option<Text>, summaryText: Option<Text>, direction: Option<Direction>,
    present: bool, reason: Option<Text>)

  // A relationship slot; the ends of an undirected relation are unordered.
  datatype Slot = Slot(source: Node, target: Node, axis: Axis, kind: Kind, direction: Direction)

  function SlotFor(source: Node, target: Node, axis: Axis, kind: Kind, direction: Direction): Slot {
    if direction != DIRECTED && target < source then Slot(target, source, axis, kind, direction)
    else Slot(source, target, axis, kind, direction)
  }

  /** Two relations take one slot exactly if they agree in axis, kind and direction and have
      the same ends, in the same order if they are directed. */
  lemma SlotsCollide(a: Node, b: Node, c: Node, d: Node, axis: Axis, otherAxis: Axis, kind: Kind, otherKind: Kind,
                     direction: Direction, other: Direction)
    ensures SlotFor(a, b, axis, kind, direction) == SlotFor(c, d, otherAxis, otherKind, other) <==>
      && axis == otherAxis && kind == otherKind && direction == other
      && ((a == c && b == d) || (direction != DIRECTED && a == d && b == c))
  {
  }

  function SlotOf(r: Relationship): Slot {
    SlotFor(r.source, r.target, r.axis, r.kind, r.direction)
  }

  function All(c: Context): seq<Observation> {
    c.observations + c.held
  }

  ghost predicate DistinctRefs(obs: seq<Observation>) {
    forall i, j :: 0 <= i < j < |obs| ==> obs[i].ref != obs[j].ref
  }

  ghost predicate DistinctRelationships(rs: seq<Relationship>) {
    forall i, j :: 0 <= i < j < |rs| ==> rs[i].ref != rs[j].ref && SlotOf(rs[i]) != SlotOf(rs[j])
  }

  // What the envelope checks of relationship_comparison_prompt_data establish.
  ghost predicate ValidContext(c: Context) {
    && (forall o | o in c.observations :: o.ref.New?)
    && (forall o | o in c.held :: o.ref.Held?)
    && DistinctRefs(All(c))
    && DistinctRelationships(c.relationships)
    && (forall r | r in c.relationships :: r.source != r.target)
  }

  // ----- what a valid list of decisions is --------------------------------------

  predicate Mutates(d: Decision) {
    d.operation == ADD || d.operation == MERGE || d.operation == UPDATE || d.operation == END
  }

  // The observation leaves no choice of end points but {a, b}.
  predicate Pins(o: Observation, a: Node, b: Node) {
    (o.sources == {a} && o.targets == {b}) || (o.sources == {b} && o.targets == {a})
  }

  // Observation a stands before observation b.
  ghost predicate Before(all: seq<Observation>, a: ObservationRef, b: ObservationRef) {
    exists i, j :: 0 <= i < j < |all| && all[i].ref == a && all[j].ref == b
  }

  ghost predicate Knows(all: seq<Observation>, a: ObservationRef) {
    exists i :: 0 <= i < |all| && all[i].ref == a
  }

  // Known references, each once, in source order, with new evidence among them.
  ghost predicate RefsOk(d: Decision, c: Context) {
    var refs := d.observationRefs;
    && (forall a | a in refs :: Knows(All(c), a))
    && (forall i, j :: 0 <= i < j < |refs| ==> Before(All(c), refs[i], refs[j]))
    && (exists a :: a in refs && a.New?)
  }

  predicate NoLeak(d: Decision) {
    && (d.labelText.Some? ==> !d.labelText.value.leaksReference)
    && (d.summaryText.Some? ==> !d.summaryText.value.leaksReference)
    && (d.reason.Some? ==> !d.reason.value.leaksReference)
  }

  predicate NoContent(d: Decision) {
    && d.relationshipRef.None? && d.source.None? && d.target.None? && d.axis.None? && d.kind.None?
    && d.labelText.None? && d.summaryText.None? && d.direction.None?
  }

  predicate FullContent(d: Decision) {
    && d.source.Some? && d.target.Some? && d.axis.Some? && d.kind.Some?
    && d.labelText.Some? && d.summaryText.Some? && d.direction.Some?
  }

  function DecisionSlot(d: Decision): Slot
    requires FullContent(d)
  {
    SlotFor(d.source.value, d.target.value, d.axis.value, d.kind.value, d.direction.value)
  }

  // An existing relationship that a MERGE, UPDATE or END may change.
  predicate Matches(d: Decision, r: Relationship)
    requires FullContent(d)
  {
    && d.relationshipRef == Some(r.ref)
    && SlotOf(r) == DecisionSlot(d) && r.source == d.source.value && r.target == d.target.value
    && (d.operation == MERGE || d.operation == END ==> r.active)
    && (d.operation == MERGE ==> d.labelText == Some(r.labelText) && d.summaryText == Some(r.summaryText))
  }

  predicate Grounded(d: Decision, all: seq<Observation>)
    requires FullContent(d)
  {
    forall o | o in all && o.ref in d.observationRefs :: Pins(o, d.source.value, d.target.value)
  }

  predicate MutationOk(d: Decision, c: Context)
    requires Mutates(d)
  {
    && d.present && FullContent(d) && d.source != d.target
    && Grounded(d, All(c))
    && (d.operation == ADD ==>
      d.relationshipRef.None? && forall r | r in c.relationships :: SlotOf(r) != DecisionSlot(d))
    && (d.operation != ADD ==> exists r | r in c.relationships :: Matches(d, r))
  }

  // The checks that look at one decision only.
  ghost predicate LocalOk(d: Decision, c: Context) {
    && RefsOk(d, c) && NoLeak(d)
    && (if Mutates(d) then MutationOk(d, c) else NoContent(d) && d.reason.Some?)
  }

  // The checks that relate two decisions: an observation is either applied or
  // held/excluded, and no slot or existing relationship is changed twice.
  ghost predicate PairOk(d: Decision, e: Decision) {
    && ((exists a :: a in d.observationRefs && a in e.observationRefs) ==> Mutates(d) && Mutates(e))
    && (Mutates(d) && Mutates(e) && FullContent(d) && FullContent(e) ==>
      && DecisionSlot(d) != DecisionSlot(e)
      && (d.relationshipRef.Some? ==> d.relationshipRef != e.relationshipRef))
  }

  ghost predicate CoversNew(ds: seq<Decision>, c: Context) {
    forall o | o in c.observations :: exists d :: d in ds && o.ref in d.observationRefs
  }

  ghost predicate ValidDecisions(ds: seq<Decision>, c: Context) {
    && (forall d | d in ds :: LocalOk(d, c))
    && (forall i, j :: 0 <= i < j < |ds| ==> PairOk(ds[i], ds[j]))
    && CoversNew(ds, c)
  }

  // ----- projection onto some observations -----------------------------------------

  function RefsOf(obs: seq<Observation>): set<ObservationRef> {
    set o | o in obs :: o.ref
  }

  function Keep(obs: seq<Observation>, refs: set<ObservationRef>): seq<Observation> {
    if obs == [] then []
    else (if obs[0].ref in refs then [obs[0]] else []) + Keep(obs[1..], refs)
  }

  // The relationship joins a possible source to a possible target of the observation.
  predicate Touches(r: Relationship, o: Observation) {
    (r.source in o.sources && r.target in o.targets) || (r.target in o.sources && r.source in o.targets)
  }

  function KeepRelationships(rs: seq<Relationship>, obs: seq<Observation>): seq<Relationship> {
    if rs == [] then []
    else (if exists o | o in obs :: Touches(rs[0], o) then [rs[0]] else []) + KeepRelationships(rs[1..], obs)
  }

  function Project(c: Context, obs: seq<Observation>): Context {
    Context(KeepRelationships(c.relationships, obs), Keep(c.observations, RefsOf(obs)), Keep(c.held, RefsOf(obs)))
  }

  lemma {:induction false} KeepMembers(obs: seq<Observation>, refs: set<ObservationRef>)
    ensures forall o :: o in Keep(obs, refs) <==> o in obs && o.ref in refs
  {
    if obs != [] {
      KeepMembers(obs[1..], refs);
      assert obs == [obs[0]] + obs[1..];
    }
  }

  lemma {:induction false} KeepConcat(a: seq<Observation>, b: seq<Observation>, refs: set<ObservationRef>)
    ensures Keep(a + b, refs) == Keep(a, refs) + Keep(b, refs)
  {
    if a == [] {
      assert a + b == b;
    } else {
      KeepConcat(a[1..], b, refs);
      assert (a + b)[0] == a[0] && (a + b)[1..] == a[1..] + b;
      var head := if a[0].ref in refs then [a[0]] else [];
      assert head + (Keep(a[1..], refs) + Keep(b, refs)) == head + Keep(a[1..], refs) + Keep(b, refs);
    }
  }

  lemma BeforeInTail(obs: seq<Observation>, a: ObservationRef, b: ObservationRef)
    requires obs != [] && Before(obs[1..], a, b)
    ensures Before(obs, a, b)
  {
    var i, j :| 0 <= i < j < |obs| - 1 && obs[1..][i].ref == a && obs[1..][j].ref == b;
    assert obs[i + 1].ref == a && obs[j + 1].ref == b;
  }

  /** Keeping some observations keeps their order. */
  lemma {:induction false} KeepOrder(obs: seq<Observation>, refs: set<ObservationRef>, a: ObservationRef,
                                     b: ObservationRef)
    requires Before(Keep(obs, refs), a, b)
    ensures Before(obs, a, b)
  {
    var kept, rest := Keep(obs, refs), Keep(obs[1..], refs);
    var i, j :| 0 <= i < j < |kept| && kept[i].ref == a && kept[j].ref == b;
    if obs[0].ref in refs && i == 0 {
      assert rest[j - 1] in rest;
      KeepMembers(obs[1..], refs);
      var k :| 0 <= k < |obs| - 1 && obs[1..][k] == rest[j - 1];
      assert obs[0].ref == a && obs[k + 1].ref == b;
    } else {
      var shift := if obs[0].ref in refs then 1 else 0;
      assert rest[i - shift].ref == a && rest[j - shift].ref == b;
      KeepOrder(obs[1..], refs, a, b);
      BeforeInTail(obs, a, b);
    }
  }

  lemma {:induction false} KeepRelationshipMembers(rs: seq<Relationship>, obs: seq<Observation>)
    ensures forall r :: r in KeepRelationships(rs, obs) <==> r in rs && exists o | o in obs :: Touches(r, o)
  {
    if rs != [] {
      KeepRelationshipMembers(rs[1..], obs);
      assert rs == [rs[0]] + rs[1..];
    }
  }

  lemma ProjectionMembers(c: Context, obs: seq<Observation>)
    ensures var sub := Project(c, obs);
      && All(sub) == Keep(All(c), RefsOf(obs))
      && (forall o :: o in All(sub) <==> o in All(c) && o.ref in RefsOf(obs))
      && (forall o :: o in sub.observations <==> o in c.observations && o.ref in RefsOf(obs))
      && (forall r :: r in sub.relationships <==> r in c.relationships && exists o | o in obs :: Touches(r, o))
  {
    KeepConcat(c.observations, c.held, RefsOf(obs));
    KeepMembers(All(c), RefsOf(obs));
    KeepMembers(c.observations, RefsOf(obs));
    KeepRelationshipMembers(c.relationships, obs);
  }

  lemma {:induction false} KeepDistinct(obs: seq<Observation>, refs: set<ObservationRef>)
    requires DistinctRefs(obs)
    ensures DistinctRefs(Keep(obs, refs))
  {
    if obs != [] {
      KeepDistinct(obs[1..], refs);
      KeepMembers(obs[1..], refs);
      forall o | o in Keep(obs[1..], refs) ensures o.ref != obs[0].ref {
        var k :| 0 <= k < |obs| - 1 && obs[1..][k] == o;
        assert obs[k + 1] == o;
      }
      var kept, rest := Keep(obs, refs), Keep(obs[1..], refs);
      var shift := |kept| - |rest|;
      forall i, j | 0 <= i < j < |kept| ensures kept[i].ref != kept[j].ref {
        assert kept[j] == rest[j - shift] && rest[j - shift] in rest;
        if i >= shift {
          assert kept[i] == rest[i - shift];
          assert rest[i - shift].ref != rest[j - shift].ref;
        } else {
          assert kept[i] == obs[0];
        }
      }
    }
  }

  lemma {:induction false} KeepRelationshipsDistinct(rs: seq<Relationship>, obs: seq<Observation>)
    requires DistinctRelationships(rs)
    ensures DistinctRelationships(KeepRelationships(rs, obs))
  {
    if rs != [] {
      KeepRelationshipsDistinct(rs[1..], obs);
      KeepRelationshipMembers(rs[1..], obs);
      var rest := KeepRelationships(rs[1..], obs);
      forall k | 0 <= k < |rest| ensures rest[k].ref != rs[0].ref && SlotOf(rest[k]) != SlotOf(rs[0]) {
        assert rest[k] in rest;
        var m :| 0 <= m < |rs| - 1 && rs[1..][m] == rest[k];
        assert rs[m + 1] == rest[k];
      }
    }
  }

  lemma ProjectionIsValid(c: Context, obs: seq<Observation>)
    requires ValidContext(c)
    ensures ValidContext(Project(c, obs))
  {
    ProjectionMembers(c, obs);
    KeepDistinct(All(c), RefsOf(obs));
    KeepMembers(c.held, RefsOf(obs));
    KeepRelationshipsDistinct(c.relationships, obs);
    var sub := Project(c, obs);
    assert forall o | o in sub.observations :: o.ref.New?;
    assert forall o | o in sub.held :: o.ref.Held?;
    assert forall r | r in sub.relationships :: r.source != r.target;
    assert All(sub) == Keep(All(c), RefsOf(obs));
  }

  /** What one decision needs from the context is already in the projection it was
      made for; in particular a slot that is new there is new in the whole context. */
  lemma LocalOkLifts(d: Decision, c: Context, obs: seq<Observation>)
    requires LocalOk(d, Project(c, obs))
    requires forall o | o in obs :: o in All(c)
    requires forall o, q | o in All(c) && q in All(c) && o.ref == q.ref :: o == q
    ensures LocalOk(d, c)
  {
    var sub := Project(c, obs);
    ProjectionMembers(c, obs);
    forall a | a in d.observationRefs ensures Knows(All(c), a) && a in RefsOf(obs) {
      assert Knows(All(sub), a);
      var i :| 0 <= i < |All(sub)| && All(sub)[i].ref == a;
      assert All(sub)[i] in All(sub);
      var k :| 0 <= k < |All(c)| && All(c)[k] == All(sub)[i];
    }
    forall i, j | 0 <= i < j < |d.observationRefs|
      ensures Before(All(c), d.observationRefs[i], d.observationRefs[j])
    {
      KeepOrder(All(c), RefsOf(obs), d.observationRefs[i], d.observationRefs[j]);
    }
    if Mutates(d) {
      MutationLifts(d, c, obs);
    }
  }

  lemma MutationLifts(d: Decision, c: Context, obs: seq<Observation>)
    requires Mutates(d) && MutationOk(d, Project(c, obs)) && d.observationRefs != []
    requires forall a | a in d.observationRefs :: Knows(All(c), a) && a in RefsOf(obs)
    requires forall o | o in obs :: o in All(c)
    requires forall o, q | o in All(c) && q in All(c) && o.ref == q.ref :: o == q
    ensures MutationOk(d, c)
  {
    var sub := Project(c, obs);
    ProjectionMembers(c, obs);
    assert Grounded(d, All(c));
    if d.operation == ADD {
      assert d.observationRefs[0] in RefsOf(obs);
      var o :| o in obs && o.ref == d.observationRefs[0];
      assert o in All(sub);
      assert Pins(o, d.source.value, d.target.value);
      forall r | r in c.relationships ensures SlotOf(r) != DecisionSlot(d) {
        assert SlotOf(r) == DecisionSlot(d) ==> Touches(r, o);
        assert Touches(r, o) ==> r in sub.relationships;
      }
    }
  }

  // ----- composition -----------------------------------------------------------------

  // No shared observation, and no pair of distinct nodes pinned on both sides.
  ghost predicate Separated(g: seq<Observation>, h: seq<Observation>) {
    && RefsOf(g) !! RefsOf(h)
    && (forall o, q, a, b | o in g && q in h && Pins(o, a, b) && Pins(q, a, b) :: a == b)
  }

  ghost predicate Consistent(ds: seq<Decision>, c: Context) {
    && (forall d | d in ds :: LocalOk(d, c))
    && (forall i, j :: 0 <= i < j < |ds| ==> PairOk(ds[i], ds[j]))
  }

  // The decision is about observations of this group only.
  ghost predicate Within(d: Decision, g: seq<Observation>) {
    forall a | a in d.observationRefs :: a in RefsOf(g)
  }

  lemma LocalIsWithin(d: Decision, c: Context, g: seq<Observation>)
    requires LocalOk(d, Project(c, g))
    ensures Within(d, g)
  {
    ProjectionMembers(c, g);
    forall a | a in d.observationRefs ensures a in RefsOf(g) {
      assert Knows(All(Project(c, g)), a);
      var i :| 0 <= i < |All(Project(c, g))| && All(Project(c, g))[i].ref == a;
      assert All(Project(c, g))[i] in All(Project(c, g));
    }
  }

  lemma PinnedWitness(d: Decision, c: Context, g: seq<Observation>) returns (o: Observation)
    requires Mutates(d) && LocalOk(d, c) && Within(d, g) && forall o | o in g :: o in All(c)
    ensures o in g && Pins(o, d.source.value, d.target.value) && d.source != d.target
  {
    var a :| a in d.observationRefs && a.New?;
    assert a in RefsOf(g);
    o :| o in g && o.ref == a;
  }

  /** Decisions about separated groups cannot collide on an observation, a slot or
      an existing relationship. */
  lemma SeparatedDecisionsAgree(d: Decision, e: Decision, c: Context, g: seq<Observation>, h: seq<Observation>)
    requires ValidContext(c) && LocalOk(d, c) && LocalOk(e, c) && Within(d, g) && Within(e, h) && Separated(g, h)
    requires (forall o | o in g :: o in All(c)) && (forall o | o in h :: o in All(c))
    ensures PairOk(d, e)
  {
    if Mutates(d) && Mutates(e) {
      var o := PinnedWitness(d, c, g);
      var q := PinnedWitness(e, c, h);
      assert !Pins(q, d.source.value, d.target.value);
      assert DecisionSlot(d) != DecisionSlot(e);
      if d.relationshipRef.Some? && e.relationshipRef.Some? {
        var r :| r in c.relationships && Matches(d, r);
        var t :| t in c.relationships && Matches(e, t);
        assert r.ref == t.ref ==> r == t;
      }
    }
  }

  lemma ConsistentConcat(ds: seq<Decision>, es: seq<Decision>, c: Context)
    requires Consistent(ds, c) && Consistent(es, c)
    requires forall d, e | d in ds && e in es :: PairOk(d, e)
    ensures Consistent(ds + es, c)
  {
    var all := ds + es;
    forall i, j | 0 <= i < j < |all| ensures PairOk(all[i], all[j]) {
      if j < |ds| {
        assert all[i] == ds[i] && all[j] == ds[j];
      } else if i < |ds| {
        assert all[i] == ds[i] && all[j] == es[j - |ds|];
      } else {
        assert all[i] == es[i - |ds|] && all[j] == es[j - |ds|];
      }
    }
  }

  // Lists of decisions, each valid against the projection of the context onto its own group.
  ghost predicate GroupwiseValid(dss: seq<seq<Decision>>, c: Context, groups: seq<seq<Observation>>) {
    && |dss| == |groups|
    && (forall i | 0 <= i < |groups| :: ValidDecisions(dss[i], Project(c, groups[i])))
  }

  ghost predicate PairwiseSeparated(groups: seq<seq<Observation>>) {
    forall i, j :: 0 <= i < j < |groups| ==> Separated(groups[i], groups[j])
  }

  ghost predicate InContext(groups: seq<seq<Observation>>, c: Context) {
    forall i, o | 0 <= i < |groups| && o in groups[i] :: o in All(c)
  }

  lemma RefsAreUnique(c: Context)
    requires ValidContext(c)
    ensures forall o, q | o in All(c) && q in All(c) && o.ref == q.ref :: o == q
  {
  }

  lemma {:induction false} GroupsAreConsistent(dss: seq<seq<Decision>>, c: Context, groups: seq<seq<Observation>>)
    requires ValidContext(c) && GroupwiseValid(dss, c, groups) && PairwiseSeparated(groups) && InContext(groups, c)
    ensures Consistent(Flatten(dss), c)
    ensures forall d | d in Flatten(dss) :: exists i :: 0 <= i < |groups| && Within(d, groups[i])
  {
    hide LocalOk, Separated, PairOk, Within, CoversNew;
    if dss != [] {
      var rest, others := dss[1..], groups[1..];
      forall i, o | 0 <= i < |others| && o in others[i] ensures o in All(c) {
        assert o in groups[i + 1];
      }
      GroupsAreConsistent(rest, c, others);
      RefsAreUnique(c);
      forall d | d in dss[0] ensures LocalOk(d, c) && Within(d, groups[0]) {
        LocalOkLifts(d, c, groups[0]);
        LocalIsWithin(d, c, groups[0]);
      }
      forall d, e | d in dss[0] && e in Flatten(rest) ensures PairOk(d, e) {
        var i :| 0 <= i < |others| && Within(e, others[i]);
        assert others[i] == groups[i + 1];
        SeparatedDecisionsAgree(d, e, c, groups[0], groups[i + 1]);
      }
      ConsistentConcat(dss[0], Flatten(rest), c);
      forall d | d in Flatten(dss) ensures exists i :: 0 <= i < |groups| && Within(d, groups[i]) {
        if d in dss[0] {
          assert Within(d, groups[0]);
        } else {
          var i :| 0 <= i < |others| && Within(d, others[i]);
          assert Within(d, groups[i + 1]);
        }
      }
    }
  }

  /** Partitioned comparison composes: decisions that are valid group by group, each
      against its own projection, are together valid against the whole context, when
      the groups are separated and hold every new observation. */
  lemma GroupwiseValidityComposes(dss: seq<seq<Decision>>, c: Context, groups: seq<seq<Observation>>)
    requires ValidContext(c) && GroupwiseValid(dss, c, groups) && PairwiseSeparated(groups) && InContext(groups, c)
    requires forall o | o in c.observations :: exists i :: 0 <= i < |groups| && o in groups[i]
    ensures ValidDecisions(Flatten(dss), c)
  {
    hide LocalOk, PairOk, Separated, ValidContext;
    GroupsAreConsistent(dss, c, groups);
    FlattenMembers(dss);
    forall o | o in c.observations ensures exists d :: d in Flatten(dss) && o.ref in d.observationRefs {
      var i :| 0 <= i < |groups| && o in groups[i];
      ProjectionMembers(c, groups[i]);
      assert o in Project(c, groups[i]).observations;
      assert CoversNew(dss[i], Project(c, groups[i]));
      var d :| d in dss[i] && o.ref in d.observationRefs;
      assert d in Flatten(dss);
    }
  }

  // ----- the one-pass validator -------------------------------------------------------

  datatype Reason =
    | OBSERVATION_REFS_INVALID | OBSERVATION_ORDER_INVALID | DISPOSITION_CONFLICT | DISPLAY_REFERENCE_LEAK
    | DISPOSITION_CONTENT_INVALID | NONPRESENT_MUTATION | MUTATION_CONTENT_MISSING | SELF_RELATIONSHIP
    | ENDPOINTS_UNGROUNDED | DUPLICATE_SLOT | ADD_SLOT_EXISTS | EXISTING_REF_MISMATCH | DUPLICATE_TARGET
    | INACTIVE_TARGET | MERGE_CONTENT_CHANGED | OBSERVATION_COVERAGE_MISSING

  // What each reason says of a decision, given the context and the decisions accepted before it.
  ghost predicate FaultOf(reason: Reason, d: Decision, before: seq<Decision>, c: Context) {
    match reason
    case OBSERVATION_REFS_INVALID => !RefsKnown(d, c) || !Distinct(d.observationRefs)
    case OBSERVATION_ORDER_INVALID => RefsKnown(d, c) && Distinct(d.observationRefs) && !RefsOk(d, c)
    case DISPOSITION_CONFLICT => exists e :: e in before && SharesObservation(e, d) && !(Mutates(e) && Mutates(d))
    case DISPLAY_REFERENCE_LEAK => !NoLeak(d)
    case DISPOSITION_CONTENT_INVALID => !Mutates(d) && (!NoContent(d) || d.reason.None?)
    case NONPRESENT_MUTATION => Mutates(d) && !d.present
    case MUTATION_CONTENT_MISSING => Mutates(d) && !FullContent(d)
    case SELF_RELATIONSHIP => Mutates(d) && FullContent(d) && d.source == d.target
    case ENDPOINTS_UNGROUNDED => Mutates(d) && FullContent(d) && !Grounded(d, All(c))
    case DUPLICATE_SLOT => Mutates(d) && FullContent(d) && exists e :: e in before && ChangesSlot(e, DecisionSlot(d))
    case ADD_SLOT_EXISTS => d.operation == ADD && FullContent(d) && (d.relationshipRef.Some? || SlotTaken(d, c))
    case EXISTING_REF_MISMATCH => ChangesExisting(d) && FullContent(d)
      && forall r | r in c.relationships :: !SameIdentity(d, r)
    case DUPLICATE_TARGET =>
      ChangesExisting(d) && d.relationshipRef.Some? && exists e ::
        e in before && ChangesTarget(e, d.relationshipRef.value)
    case INACTIVE_TARGET =>
      (d.operation == MERGE || d.operation == END) && exists r ::
        r in c.relationships && d.relationshipRef == Some(r.ref) && !r.active
    case MERGE_CONTENT_CHANGED =>
      d.operation == MERGE && exists r :: r in c.relationships && d.relationshipRef == Some(r.ref) && !SameContent(d, r)
    case OBSERVATION_COVERAGE_MISSING => false
  }

  ghost predicate RefsKnown(d: Decision, c: Context) {
    forall a | a in d.observationRefs :: Knows(All(c), a)
  }

  predicate SharesObservation(d: Decision, e: Decision) {
    exists a | a in d.observationRefs :: a in e.observationRefs
  }

  predicate ChangesSlot(d: Decision, t: Slot) {
    Mutates(d) && FullContent(d) && DecisionSlot(d) == t
  }

  predicate ChangesTarget(d: Decision, n: nat) {
    Mutates(d) && FullContent(d) && d.relationshipRef == Some(n)
  }

  predicate ChangesExisting(d: Decision) {
    Mutates(d) && d.operation != ADD
  }

  predicate SlotTaken(d: Decision, c: Context)
    requires FullContent(d)
  {
    exists r | r in c.relationships :: SlotOf(r) == DecisionSlot(d)
  }

  predicate SameIdentity(d: Decision, r: Relationship)
    requires FullContent(d)
  {
    && d.relationshipRef == Some(r.ref)
    && SlotOf(r) == DecisionSlot(d) && r.source == d.source.value && r.target == d.target.value
  }

  predicate SameContent(d: Decision, r: Relationship) {
    d.labelText == Some(r.labelText) && d.summaryText == Some(r.summaryText)
  }

  // The first decision at fault has this fault, or all are in order and leave something out.
  ghost predicate RejectedFor(reason: Reason, ds: seq<Decision>, c: Context) {
    if reason == OBSERVATION_COVERAGE_MISSING then Consistent(ds, c) && !CoversNew(ds, c)
    else exists i :: 0 <= i < |ds| && Consistent(ds[..i], c) && FaultOf(reason, ds[i], ds[..i], c)
  }

  // order[a] is the position of the observation with reference a.
  ghost predicate IsOrder(order: map<ObservationRef, nat>, all: seq<Observation>) {
    && (forall a | a in order :: order[a] < |all| && all[order[a]].ref == a)
    && (forall i | 0 <= i < |all| :: all[i].ref in order)
  }

  method Positions(all: seq<Observation>) returns (order: map<ObservationRef, nat>)
    ensures IsOrder(order, all)
  {
    order := map[];
    for i := 0 to |all|
      invariant forall a | a in order :: order[a] < i && all[order[a]].ref == a
      invariant forall k | 0 <= k < i :: all[k].ref in order
    {
      order := order[all[i].ref := i];
    }
  }

  lemma OrderIsBefore(order: map<ObservationRef, nat>, c: Context, a: ObservationRef, b: ObservationRef)
    requires ValidContext(c) && IsOrder(order, All(c)) && a in order && b in order
    ensures Before(All(c), a, b) <==> order[a] < order[b]
  {
    if order[a] < order[b] {
      assert All(c)[order[a]].ref == a && All(c)[order[b]].ref == b;
    }
  }

  method CheckRefs(d: Decision, c: Context, order: map<ObservationRef, nat>) returns (reason: Option<Reason>)
    requires ValidContext(c) && IsOrder(order, All(c))
    ensures reason.None? <==> RefsOk(d, c)
    ensures reason.Some? ==>
      FaultOf(reason.value, d, [], c) && reason.value in {OBSERVATION_REFS_INVALID, OBSERVATION_ORDER_INVALID}
  {
    var refs := d.observationRefs;
    if exists a | a in refs :: a !in order {
      return Some(OBSERVATION_REFS_INVALID);
    }
    forall i, j | 0 <= i < j < |refs|
      ensures Before(All(c), refs[i], refs[j]) <==> order[refs[i]] < order[refs[j]]
    {
      OrderIsBefore(order, c, refs[i], refs[j]);
    }
    if exists i, j | 0 <= i < j < |refs| :: refs[i] == refs[j] {
      return Some(OBSERVATION_REFS_INVALID);
    }
    if exists i, j | 0 <= i < j < |refs| :: order[refs[i]] > order[refs[j]] {
      return Some(OBSERVATION_ORDER_INVALID);
    }
    forall i, j | 0 <= i < j < |refs| ensures order[refs[i]] < order[refs[j]] {
      assert order[refs[i]] != order[refs[j]];
    }
    reason := if exists a | a in refs :: a.New? then None else Some(OBSERVATION_ORDER_INVALID);
  }

  // The relationship that a MERGE, UPDATE or END names.
  method CheckTarget(d: Decision, c: Context, used: set<nat>, ghost before: seq<Decision>)
    returns (reason: Option<Reason>)
    requires ValidContext(c) && ChangesExisting(d) && FullContent(d)
    requires forall n | n in used :: exists e :: e in before && ChangesTarget(e, n)
    ensures reason.None? <==> (exists r | r in c.relationships :: Matches(d, r)) && d.relationshipRef.value !in used
    ensures reason.Some? ==> FaultOf(reason.value, d, before, c)
    ensures reason.Some? ==>
      reason.value in {EXISTING_REF_MISMATCH, DUPLICATE_TARGET, INACTIVE_TARGET, MERGE_CONTENT_CHANGED}
  {
    hide DecisionSlot, SlotOf;
    var i := 0;
    while i < |c.relationships| && Some(c.relationships[i].ref) != d.relationshipRef
      invariant i <= |c.relationships|
      invariant forall k | 0 <= k < i :: Some(c.relationships[k].ref) != d.relationshipRef
    {
      i := i + 1;
    }
    if i == |c.relationships| { return Some(EXISTING_REF_MISMATCH); }
    var r := c.relationships[i];
    assert forall q | q in c.relationships && d.relationshipRef == Some(q.ref) :: q == r;
    if !SameIdentity(d, r) { return Some(EXISTING_REF_MISMATCH); }
    if r.ref in used { return Some(DUPLICATE_TARGET); }
    if d.operation != UPDATE && !r.active { return Some(INACTIVE_TARGET); }
    if d.operation == MERGE && !SameContent(d, r) { return Some(MERGE_CONTENT_CHANGED); }
    assert Matches(d, r);
    reason := None;
  }

  lemma SingletonIs<T>(s: set<T>, x: T)
    ensures s == {x} <==> |s| == 1 && x in s
  {
    if |s| == 1 && x in s {
      assert |s - {x}| == 0;
      assert s == {x} + (s - {x});
    }
  }

  // Each observation leaves one source and one target, which are the ends of the relation.
  method CheckEndpoints(d: Decision, all: seq<Observation>) returns (ok: bool)
    requires FullContent(d)
    ensures ok <==> Grounded(d, all)
  {
    var (source, target) := (d.source.value, d.target.value);
    for i := 0 to |all|
      invariant forall k | 0 <= k < i && all[k].ref in d.observationRefs :: Pins(all[k], source, target)
    {
      var o := all[i];
      SingletonIs(o.sources, source);
      SingletonIs(o.targets, target);
      SingletonIs(o.sources, target);
      SingletonIs(o.targets, source);
      if o.ref in d.observationRefs {
        if |o.sources| != 1 || |o.targets| != 1 {
          return false;
        }
        if !(source in o.sources && target in o.targets) && !(target in o.sources && source in o.targets) {
          return false;
        }
      }
    }
    ok := true;
  }

  method CheckMutation(d: Decision, c: Context, changed: set<Slot>, used: set<nat>, ghost before: seq<Decision>)
    returns (reason: Option<Reason>)
    requires ValidContext(c) && Mutates(d)
    requires forall t | t in changed :: exists e :: e in before && ChangesSlot(e, t)
    requires forall n | n in used :: exists e :: e in before && ChangesTarget(e, n)
    ensures reason.Some? ==> FaultOf(reason.value, d, before, c) && reason.value != OBSERVATION_COVERAGE_MISSING
    ensures reason.None? <==>
      && MutationOk(d, c) && DecisionSlot(d) !in changed && (d.operation != ADD ==> d.relationshipRef.value !in used)
  {
    hide DecisionSlot, SlotOf, Grounded, ChangesTarget;
    if !d.present { return Some(NONPRESENT_MUTATION); }
    if d.source.None? || d.target.None? || d.axis.None? || d.kind.None? || d.labelText.None? || d.summaryText.None?
      || d.direction.None? {
      return Some(MUTATION_CONTENT_MISSING);
    }
    if d.source == d.target { return Some(SELF_RELATIONSHIP); }
    var grounded := CheckEndpoints(d, All(c));
    if !grounded { return Some(ENDPOINTS_UNGROUNDED); }
    var slot := DecisionSlot(d);
    if slot in changed { return Some(DUPLICATE_SLOT); }
    if d.operation == ADD {
      return if d.relationshipRef.Some? || SlotTaken(d, c) then Some(ADD_SLOT_EXISTS) else None;
    }
    reason := CheckTarget(d, c, used, before);
  }

  ghost predicate RemembersUse(ds: seq<Decision>, consumed: map<ObservationRef, bool>) {
    && (forall d, a | d in ds && a in d.observationRefs :: a in consumed && consumed[a] == Mutates(d))
    && (forall a | a in consumed :: exists d :: d in ds && a in d.observationRefs)
  }

  // What the pass remembers of the decisions it has accepted.
  ghost predicate Remembers(ds: seq<Decision>, consumed: map<ObservationRef, bool>, changed: set<Slot>, used: set<nat>)
  {
    RemembersUse(ds, consumed) && RemembersTargets(ds, changed, used)
  }

  ghost predicate RemembersTargets(ds: seq<Decision>, changed: set<Slot>, used: set<nat>) {
    && (forall d | d in ds && Mutates(d) :: FullContent(d) && DecisionSlot(d) in changed)
    && (forall t | t in changed :: exists d :: d in ds && ChangesSlot(d, t))
    && (forall d | d in ds && Mutates(d) && d.operation != ADD ::
      d.relationshipRef.Some? && d.relationshipRef.value in used)
    && (forall n | n in used :: exists d :: d in ds && ChangesTarget(d, n))
  }

  // The decision agrees with what is remembered.
  predicate Fits(d: Decision, consumed: map<ObservationRef, bool>, changed: set<Slot>, used: set<nat>) {
    && (forall a | a in d.observationRefs && a in consumed :: consumed[a] && Mutates(d))
    && (Mutates(d) && FullContent(d) ==>
      DecisionSlot(d) !in changed && (d.relationshipRef.Some? ==> d.relationshipRef.value !in used))
  }

  lemma FitsAgrees(ds: seq<Decision>, d: Decision, e: Decision, consumed: map<ObservationRef, bool>, changed: set<Slot>,
                   used: set<nat>)
    requires Remembers(ds, consumed, changed, used) && Fits(d, consumed, changed, used) && e in ds
    requires (Mutates(d) ==> FullContent(d)) && (Mutates(e) && e.operation == ADD ==> e.relationshipRef.None?)
    ensures PairOk(e, d)
  {
    if exists a :: a in e.observationRefs && a in d.observationRefs {
      var a :| a in e.observationRefs && a in d.observationRefs;
      assert consumed[a] == Mutates(e);
    }
  }

  lemma MisfitDisagrees(ds: seq<Decision>, d: Decision, consumed: map<ObservationRef, bool>, changed: set<Slot>,
                        used: set<nat>)
    returns (e: Decision)
    requires Remembers(ds, consumed, changed, used) && !Fits(d, consumed, changed, used)
    ensures e in ds && !PairOk(e, d)
  {
    if exists a :: a in d.observationRefs && a in consumed && !(consumed[a] && Mutates(d)) {
      var a :| a in d.observationRefs && a in consumed && !(consumed[a] && Mutates(d));
      e :| e in ds && a in e.observationRefs;
    } else if DecisionSlot(d) in changed {
      e :| e in ds && Mutates(e) && FullContent(e) && DecisionSlot(e) == DecisionSlot(d);
    } else {
      e :| e in ds && Mutates(e) && FullContent(e) && e.relationshipRef == d.relationshipRef;
    }
  }

  // A change says all of itself, and only an ADD names no relationship.
  predicate Aimed(d: Decision) {
    Mutates(d) ==> FullContent(d) && (d.operation == ADD <==> d.relationshipRef.None?)
  }

  lemma LocalIsAimed(d: Decision, c: Context)
    requires LocalOk(d, c)
    ensures Aimed(d)
  {
    hide RefsOk, NoLeak, Grounded;
  }

  lemma FitsIsPairwise(ds: seq<Decision>, d: Decision, consumed: map<ObservationRef, bool>, changed: set<Slot>,
                       used: set<nat>)
    requires Remembers(ds, consumed, changed, used) && Aimed(d) && forall e | e in ds :: Aimed(e)
    ensures Fits(d, consumed, changed, used) <==> forall e | e in ds :: PairOk(e, d)
  {
    hide Remembers, Fits, PairOk;
    if Fits(d, consumed, changed, used) {
      forall e | e in ds ensures PairOk(e, d) {
        FitsAgrees(ds, d, e, consumed, changed, used);
      }
    } else {
      var e := MisfitDisagrees(ds, d, consumed, changed, used);
    }
  }

  lemma RemembersUseMore(ds: seq<Decision>, d: Decision, consumed: map<ObservationRef, bool>)
    requires RemembersUse(ds, consumed)
    requires forall a | a in d.observationRefs && a in consumed :: consumed[a] && Mutates(d)
    ensures RemembersUse(ds + [d], consumed + (map a | a in d.observationRefs :: Mutates(d)))
  {
    hide Mutates;
    var consumed' := consumed + (map a | a in d.observationRefs :: Mutates(d));
    forall e | e in ds ensures e in ds + [d] {}
    assert d in ds + [d];
    forall a | a in consumed' ensures exists e :: e in ds + [d] && a in e.observationRefs {
      if a !in d.observationRefs {
        var e :| e in ds && a in e.observationRefs;
        assert e in ds + [d];
      }
    }
  }

  lemma RemembersTargetsMore(ds: seq<Decision>, d: Decision, changed: set<Slot>, used: set<nat>)
    requires RemembersTargets(ds, changed, used) && Aimed(d)
    ensures RemembersTargets(ds + [d], if Mutates(d) then changed + {DecisionSlot(d)} else changed,
                             if Mutates(d) && d.operation != ADD then used + {d.relationshipRef.value} else used)
  {
    hide DecisionSlot;
    var more := ds + [d];
    assert d in more;
    forall e ensures e in more <==> e in ds || e == d {}
  }

  lemma RemembersMore(ds: seq<Decision>, d: Decision, consumed: map<ObservationRef, bool>, changed: set<Slot>,
                      used: set<nat>)
    requires Remembers(ds, consumed, changed, used) && Fits(d, consumed, changed, used) && Aimed(d)
    ensures Remembers(ds + [d], consumed + (map a | a in d.observationRefs :: Mutates(d)),
      if Mutates(d) then changed + {DecisionSlot(d)} else changed,
      if Mutates(d) && d.operation != ADD then used + {d.relationshipRef.value} else used)
  {
    hide RemembersUse, RemembersTargets;
    RemembersUseMore(ds, d, consumed);
    RemembersTargetsMore(ds, d, changed, used);
  }

  lemma PrefixConsistent(ds: seq<Decision>, i: nat, c: Context)
    requires i < |ds| && Consistent(ds[..i], c)
    ensures Consistent(ds[..i + 1], c) <==> LocalOk(ds[i], c) && forall e | e in ds[..i] :: PairOk(e, ds[i])
  {
    assert ds[..i + 1] == ds[..i] + [ds[i]];
    if LocalOk(ds[i], c) && forall e | e in ds[..i] :: PairOk(e, ds[i]) {
      assert Consistent([ds[i]], c);
      ConsistentConcat(ds[..i], [ds[i]], c);
    } else if LocalOk(ds[i], c) {
      var e :| e in ds[..i] && !PairOk(e, ds[i]);
      var k :| 0 <= k < i && ds[..i][k] == e;
      assert !PairOk(ds[..i + 1][k], ds[..i + 1][i]);
    } else {
      assert ds[i] in ds[..i + 1];
    }
  }

  lemma ConsistentPrefix(ds: seq<Decision>, i: nat, c: Context)
    requires i <= |ds|
    ensures Consistent(ds, c) ==> Consistent(ds[..i], c)
  {
    forall d | d in ds[..i] ensures d in ds {}
  }

  /** The one-pass validator accepts exactly the valid lists of decisions, and the reason
      of a rejection is a fault of the first decision that has one, or missing coverage. */
  method ValidateDecisions(ds: seq<Decision>, c: Context) returns (reason: Option<Reason>)
    requires ValidContext(c)
    ensures reason.None? <==> ValidDecisions(ds, c)
    ensures reason.Some? ==> RejectedFor(reason.value, ds, c)
  {
    hide LocalOk, PairOk, ValidContext, Remembers, Fits, FaultOf, CoversNew;
    var order := Positions(All(c));
    var consumed: map<ObservationRef, bool> := map[];
    var changed: set<Slot> := {};
    var used: set<nat> := {};
    RemembersNothing();
    assert ds[..0] == [];
    for i := 0 to |ds|
      invariant Remembers(ds[..i], consumed, changed, used) && Consistent(ds[..i], c)
    {
      var d := ds[i];
      PrefixConsistent(ds, i, c);
      ConsistentIsAimed(ds[..i], c);
      var problem := CheckDecision(d, c, order, consumed, changed, used, ds[..i]);
      if problem.Some? {
        if LocalOk(d, c) {
          LocalIsAimed(d, c);
          FitsIsPairwise(ds[..i], d, consumed, changed, used);
        }
        ConsistentPrefix(ds, i + 1, c);
        return problem;
      }
      LocalIsAimed(d, c);
      FitsIsPairwise(ds[..i], d, consumed, changed, used);
      RemembersMore(ds[..i], d, consumed, changed, used);
      assert ds[..i + 1] == ds[..i] + [d];
      consumed := consumed + (map a | a in d.observationRefs :: Mutates(d));
      if Mutates(d) {
        changed := changed + {DecisionSlot(d)};
        if d.operation != ADD {
          used := used + {d.relationshipRef.value};
        }
      }
    }
    assert ds[..|ds|] == ds;
    CoverageIsConsumption(ds, c, consumed, changed, used);
    reason := if forall o | o in c.observations :: o.ref in consumed then None else Some(OBSERVATION_COVERAGE_MISSING);
  }

  lemma RemembersNothing()
    ensures Remembers([], map[], {}, {})
  {
  }

  lemma ConsistentIsAimed(ds: seq<Decision>, c: Context)
    requires Consistent(ds, c)
    ensures forall d | d in ds :: Aimed(d)
  {
    hide LocalOk, PairOk, Aimed;
    forall d | d in ds ensures Aimed(d) { LocalIsAimed(d, c); }
  }

  lemma CoverageIsConsumption(ds: seq<Decision>, c: Context, consumed: map<ObservationRef, bool>, changed: set<Slot>,
                              used: set<nat>)
    requires Remembers(ds, consumed, changed, used)
    ensures CoversNew(ds, c) <==> forall o | o in c.observations :: o.ref in consumed
  {
  }

  lemma ConflictIsShared(d: Decision, before: seq<Decision>, consumed: map<ObservationRef, bool>)
    requires RemembersUse(before, consumed) && exists a | a in d.observationRefs ::
      a in consumed && !(consumed[a] && Mutates(d))
    ensures exists e :: e in before && SharesObservation(e, d) && !(Mutates(e) && Mutates(d))
  {
    var a :| a in d.observationRefs && a in consumed && !(consumed[a] && Mutates(d));
    var e :| e in before && a in e.observationRefs;
    assert SharesObservation(e, d);
  }

  // What is held or excluded proposes nothing, and says why.
  method CheckDisposition(d: Decision, ghost before: seq<Decision>, ghost c: Context) returns (reason: Option<Reason>)
    requires !Mutates(d)
    ensures reason.None? <==> NoContent(d) && d.reason.Some?
    ensures reason.Some? ==> reason == Some(DISPOSITION_CONTENT_INVALID) && FaultOf(reason.value, d, before, c)
  {
    if d.relationshipRef.Some? || d.source.Some? || d.target.Some? || d.axis.Some? || d.kind.Some? {
      return Some(DISPOSITION_CONTENT_INVALID);
    }
    if d.labelText.Some? || d.summaryText.Some? || d.direction.Some? || d.reason.None? {
      return Some(DISPOSITION_CONTENT_INVALID);
    }
    reason := None;
  }

  method CheckDecision(d: Decision, c: Context, order: map<ObservationRef, nat>, consumed: map<ObservationRef, bool>,
                       changed: set<Slot>, used: set<nat>, ghost before: seq<Decision>)
    returns (reason: Option<Reason>)
    requires ValidContext(c) && IsOrder(order, All(c)) && Remembers(before, consumed, changed, used)
    ensures reason.None? <==> LocalOk(d, c) && Fits(d, consumed, changed, used)
    ensures reason.Some? ==> FaultOf(reason.value, d, before, c) && reason.value != OBSERVATION_COVERAGE_MISSING
  {
    hide RefsOk, ValidContext, NoLeak, NoContent, Grounded;
    reason := CheckRefs(d, c, order);
    if reason.Some? { return; }
    var mutates := d.operation in {ADD, MERGE, UPDATE, END};
    if exists a | a in d.observationRefs :: a in consumed && !(consumed[a] && mutates) {
      ConflictIsShared(d, before, consumed);
      return Some(DISPOSITION_CONFLICT);
    }
    var texts := [d.labelText, d.summaryText, d.reason];
    if exists k | 0 <= k < |texts| :: texts[k].Some? && texts[k].value.leaksReference {
      LeakIsShown(d);
      return Some(DISPLAY_REFERENCE_LEAK);
    }
    LeakIsShown(d);
    if d.operation in {ADD, MERGE, UPDATE, END} {
      reason := CheckMutation(d, c, changed, used, before);
    } else {
      reason := CheckDisposition(d, before, c);
    }
  }

  lemma LeakIsShown(d: Decision)
    ensures var texts := [d.labelText, d.summaryText, d.reason];
      NoLeak(d) <==> forall k | 0 <= k < |texts| :: texts[k].Some? ==> !texts[k].value.leaksReference
  {
    var texts := [d.labelText, d.summaryText, d.reason];
    assert texts[0] == d.labelText && texts[1] == d.summaryText && texts[2] == d.reason;
  }
}
