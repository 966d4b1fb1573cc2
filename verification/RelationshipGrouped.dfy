/**
 Pair-scoped comparison with one bounded repair and explicit failures, from
 app/analysis/relationship_grouped_comparator.py.
 */
module RelationshipGrouped {
  import opened Options
  import opened RelationshipValidation
  import opened RelationshipPartition
  import opened Sequences

  // An unordered pair of distinct nodes, smaller first.
  datatype Pair = Pair(left: Node, right: Node)

  function OnlyMember(s: set<Node>): (a: Node)
    requires |s| == 1
    ensures s == {a}
  {
    assert s != {};
    assert forall a, b | a in s && b in s :: a == b by {
      forall a, b | a in s && b in s ensures a == b { SingletonIsUnique(s, a); }
    }
    var a :| a in s;
    SingletonIsUnique(s, a);
    a
  }

  // The pair that the observation pins, if any.
  function PairOf(o: Observation): Option<Pair> {
    if |o.sources| == 1 && |o.targets| == 1 && o.sources != o.targets then
      var a, b := OnlyMember(o.sources), OnlyMember(o.targets);
      Some(if a < b then Pair(a, b) else Pair(b, a))
    else None
  }

  lemma PinnedPair(o: Observation, a: Node, b: Node)
    requires Pins(o, a, b)
    ensures PairOf(o) == if a == b then None else Some(if a < b then Pair(a, b) else Pair(b, a))
  {
    assert |{a}| == 1 && |{b}| == 1;
    if a != b {
      assert a in o.sources || b in o.sources;
      assert o.sources != o.targets;
    }
  }

  // ----- groups ----------------------------------------------------------------

  datatype Group = Group(pair: Pair, observations: seq<Observation>, held: seq<Observation>)

  function Related(g: Group): seq<Observation> {
    g.observations + g.held
  }

  function OfPair(obs: seq<Observation>, p: Pair): seq<Observation> {
    if obs == [] then []
    else (if PairOf(obs[0]) == Some(p) then [obs[0]] else []) + OfPair(obs[1..], p)
  }

  lemma {:induction false} OfPairMembers(obs: seq<Observation>, p: Pair)
    ensures forall o :: o in OfPair(obs, p) <==> o in obs && PairOf(o) == Some(p)
  {
    if obs != [] {
      OfPairMembers(obs[1..], p);
      assert obs == [obs[0]] + obs[1..];
    }
  }

  const UNCONFIRMED := Text("", false)

  function Hold(o: Observation): Decision {
    Decision([o.ref], HOLD, None, None, None, None, None, None, None, None, false, Some(UNCONFIRMED))
  }

  ghost predicate IsGroup(g: Group, c: Context) {
    && g.observations != []
    && (forall o :: o in g.observations <==> o in c.observations && PairOf(o) == Some(g.pair))
    && (forall o :: o in g.held <==> o in c.held && PairOf(o) == Some(g.pair))
  }

  // One group for each pinned pair of a new observation, with the held observations
  // of that pair; the other new observations are held one by one.
  ghost predicate AreGroups(groups: seq<Group>, unpaired: seq<Observation>, c: Context) {
    && (forall g | g in groups :: IsGroup(g, c))
    && (forall i, j :: 0 <= i < j < |groups| ==> groups[i].pair != groups[j].pair)
    && (forall o | o in c.observations && PairOf(o).Some? :: exists g :: g in groups && PairOf(o) == Some(g.pair))
    && (forall o :: o in unpaired <==> o in c.observations && PairOf(o).None?)
    && DistinctRefs(unpaired)
  }

  // The pairs in the order of their first observations, and the observations without one.
  function FirstPairs(obs: seq<Observation>): (pairs: seq<Pair>) {
    if obs == [] then []
    else
      var (before, last) := (FirstPairs(obs[..|obs| - 1]), PairOf(obs[|obs| - 1]));
      if last.None? || last.value in before then before else before + [last.value]
  }

  function WithoutPair(obs: seq<Observation>): (unpaired: seq<Observation>) {
    if obs == [] then []
    else WithoutPair(obs[..|obs| - 1]) + if PairOf(obs[|obs| - 1]).None? then [obs[|obs| - 1]] else []
  }

  lemma {:induction false} FirstPairsMembers(obs: seq<Observation>)
    ensures forall p :: p in FirstPairs(obs) <==> exists o :: o in obs && PairOf(o) == Some(p)
    ensures Distinct(FirstPairs(obs))
  {
    hide PairOf;
    if obs != [] {
      FirstPairsMembers(obs[..|obs| - 1]);
      assert obs == obs[..|obs| - 1] + [obs[|obs| - 1]];
      assert obs[|obs| - 1] in obs;
    }
  }

  lemma {:induction false} WithoutPairMembers(obs: seq<Observation>)
    ensures forall o :: o in WithoutPair(obs) <==> o in obs && PairOf(o).None?
    ensures |WithoutPair(obs)| <= |obs|
  {
    hide PairOf;
    if obs != [] {
      WithoutPairMembers(obs[..|obs| - 1]);
      assert obs == obs[..|obs| - 1] + [obs[|obs| - 1]];
    }
  }

  lemma {:induction false} WithoutPairDistinct(obs: seq<Observation>)
    requires DistinctRefs(obs)
    ensures DistinctRefs(WithoutPair(obs))
  {
    hide PairOf, WithoutPair;
    if obs == [] {
      NoObservations();
    } else {
      var before, last := obs[..|obs| - 1], obs[|obs| - 1];
      WithoutPairDistinct(before);
      WithoutPairMembers(before);
      assert obs == before + [last];
      OneMoreObservation(before, last);
      forall o | o in before ensures o.ref != last.ref {
        var k :| 0 <= k < |before| && before[k] == o;
        assert obs[k].ref != obs[|obs| - 1].ref;
      }
    }
  }

  lemma OneMoreObservation(obs: seq<Observation>, o: Observation)
    ensures WithoutPair(obs + [o]) == WithoutPair(obs) + if PairOf(o).None? then [o] else []
    ensures FirstPairs(obs + [o]) ==
      if PairOf(o).None? || PairOf(o).value in FirstPairs(obs) then FirstPairs(obs)
        else FirstPairs(obs) + [PairOf(o).value]
  {
    hide PairOf;
    assert (obs + [o])[..|obs|] == obs;
  }

  lemma NoObservations()
    ensures FirstPairs([]) == [] && WithoutPair([]) == []
  {
  }

  /** The dictionary pass over the new observations: the groups come in the order of their
      first observations, and the observations of a group in their own order. */
  method BuildGroups(c: Context) returns (groups: seq<Group>, unpaired: seq<Observation>)
    requires ValidContext(c)
    ensures groups == GroupsOf(FirstPairs(c.observations), c) && unpaired == WithoutPair(c.observations)
    ensures AreGroups(groups, unpaired, c) && |unpaired| <= |c.observations|
  {
    hide PairOf, OfPair, FirstPairs, WithoutPair, AreGroups, ValidContext;
    var pairs: seq<Pair> := [];
    unpaired := [];
    NoObservations();
    for i := 0 to |c.observations|
      invariant pairs == FirstPairs(c.observations[..i]) && unpaired == WithoutPair(c.observations[..i])
    {
      var o := c.observations[i];
      assert c.observations[..i + 1] == c.observations[..i] + [o];
      OneMoreObservation(c.observations[..i], o);
      match PairOf(o) {
        case None =>
          unpaired := unpaired + [o];
        case Some(p) =>
          if p !in pairs {
            pairs := pairs + [p];
          }
      }
    }
    assert c.observations[..|c.observations|] == c.observations;
    groups := GroupsOf(pairs, c);
    FirstPairsMembers(c.observations);
    WithoutPairMembers(c.observations);
    NewAreDistinct(c);
    WithoutPairDistinct(c.observations);
    GroupsOfPairs(pairs, c);
    GroupsFromPairs(groups, unpaired, c);
  }

  lemma NewAreDistinct(c: Context)
    requires ValidContext(c)
    ensures DistinctRefs(c.observations)
  {
    forall i, j | 0 <= i < j < |c.observations| ensures c.observations[i].ref != c.observations[j].ref {
      assert All(c)[i].ref != All(c)[j].ref;
    }
  }

  function GroupsOf(pairs: seq<Pair>, c: Context): (groups: seq<Group>)
    ensures |groups| == |pairs|
  {
    seq(|pairs|, k requires 0 <=
      k < |pairs| => Group(pairs[k], OfPair(c.observations, pairs[k]), OfPair(c.held, pairs[k])))
  }

  lemma GroupsOfPairs(pairs: seq<Pair>, c: Context)
    ensures forall g | g in GroupsOf(pairs, c) ::
      g.pair in pairs && g.observations == OfPair(c.observations, g.pair) && g.held == OfPair(c.held, g.pair)
    ensures forall p | p in pairs :: exists g :: g in GroupsOf(pairs, c) && g.pair == p
  {
    var groups := GroupsOf(pairs, c);
    forall p | p in pairs ensures exists g :: g in groups && g.pair == p {
      var k :| 0 <= k < |pairs| && pairs[k] == p;
      assert groups[k] in groups && groups[k].pair == p;
    }
  }

  lemma GroupsFromPairs(groups: seq<Group>, unpaired: seq<Observation>, c: Context)
    requires forall g | g in groups ::
      g.observations == OfPair(c.observations, g.pair) && g.held == OfPair(c.held, g.pair)
    requires forall g | g in groups :: exists o :: o in c.observations && PairOf(o) == Some(g.pair)
    requires forall i, j :: 0 <= i < j < |groups| ==> groups[i].pair != groups[j].pair
    requires forall o | o in c.observations && PairOf(o).Some? :: exists g :: g in groups && g.pair == PairOf(o).value
    requires (forall o :: o in unpaired <==> o in c.observations && PairOf(o).None?) && DistinctRefs(unpaired)
    ensures AreGroups(groups, unpaired, c)
  {
    hide PairOf;
    forall g | g in groups ensures IsGroup(g, c) {
      OfPairMembers(c.observations, g.pair);
      OfPairMembers(c.held, g.pair);
    }
  }

  // ----- one provider call --------------------------------------------------------

  datatype GroupDirection = LEFT_TO_RIGHT | RIGHT_TO_LEFT | BOTH_WAYS | NO_DIRECTION

  // A decision row of the grouped response; the ends of the relation are implied.
  datatype Row = Row(
    observationRefs: seq<ObservationRef>, operation: Operation, relationshipRef: Option<nat>,
    axis: Option<Axis>, kind: Option<Kind>, labelText: Option<Text>, summaryText: Option<Text>,
    direction: Option<GroupDirection>, present: bool, reason: Option<Text>, leaksGroupRef: bool)

  datatype FailureReason =
    | INPUT_TOO_LARGE | PREDECESSOR_INCOMPLETE | RESPONSE_JSON_INVALID | RESPONSE_SCHEMA_INVALID
    | GROUP_REFS_INVALID | GROUP_MISSING | Domain(reason: Reason)

  datatype Expansion = Expanded(decision: Decision) | Refused(reason: FailureReason)

  function FindRelationship(rs: seq<Relationship>, ref: Option<nat>): (r: Option<Relationship>)
    ensures r.Some? ==> r.value in rs && ref == Some(r.value.ref)
  {
    if rs == [] then None
    else if Some(rs[0].ref) == ref then Some(rs[0])
    else FindRelationship(rs[1..], ref)
  }

  // _expand: restore the identity fields the provider is not allowed to choose.
  function Expand(row: Row, pair: Pair, rs: seq<Relationship>): Expansion {
    if row.leaksGroupRef then Refused(Domain(DISPLAY_REFERENCE_LEAK))
    else if row.operation == ADD then
      if row.relationshipRef.Some? then Refused(Domain(ADD_SLOT_EXISTS))
      else
        var reversed := row.direction == Some(RIGHT_TO_LEFT);
        var direction := match row.direction
          case None => None
          case Some(BOTH_WAYS) => Some(MUTUAL)
          case Some(NO_DIRECTION) => Some(UNDIRECTED)
          case Some(_) => Some(DIRECTED);
        Expanded(Decision(row.observationRefs, ADD, None,
          Some(if reversed then pair.right else pair.left), Some(if reversed then pair.left else pair.right),
          row.axis, row.kind, row.labelText, row.summaryText, direction, row.present, row.reason))
    else if row.operation == MERGE || row.operation == UPDATE || row.operation == END then
      var existing := FindRelationship(rs, row.relationshipRef);
      if existing.None? || row.axis.Some? || row.kind.Some? || row.direction.Some?
        then Refused(Domain(EXISTING_REF_MISMATCH))
      else if row.operation == MERGE && (row.labelText.Some? || row.summaryText.Some?)
        then Refused(Domain(MERGE_CONTENT_CHANGED))
      else
        var r := existing.value;
        var merged := row.operation == MERGE;
        Expanded(Decision(row.observationRefs, row.operation, row.relationshipRef, Some(r.source), Some(r.target),
          Some(r.axis), Some(r.kind), if merged then Some(r.labelText) else row.labelText,
          if merged then Some(r.summaryText) else row.summaryText, Some(r.direction), row.present, row.reason))
    else if row.direction == Some(LEFT_TO_RIGHT) || row.direction == Some(RIGHT_TO_LEFT)
      then Refused(RESPONSE_SCHEMA_INVALID)
    else
      var direction := match row.direction
        case None => None
        case Some(BOTH_WAYS) => Some(MUTUAL)
        case Some(_) => Some(UNDIRECTED);
      Expanded(Decision(row.observationRefs, row.operation, row.relationshipRef, None, None,
        row.axis, row.kind, row.labelText, row.summaryText, direction, row.present, row.reason))
  }

  // The decision names the relationship and carries its identity; a MERGE its content too.
  ghost predicate Restores(d: Decision, r: Relationship) {
    && d.relationshipRef == Some(r.ref) && d.source == Some(r.source) && d.target == Some(r.target)
    && d.axis == Some(r.axis) && d.kind == Some(r.kind) && d.direction == Some(r.direction)
    && (FullContent(d) ==> DecisionSlot(d) == SlotOf(r))
    && (d.operation == MERGE ==> d.labelText == Some(r.labelText) && d.summaryText == Some(r.summaryText))
    && (d.operation == MERGE && r.active ==> FullContent(d) && Matches(d, r))
  }

  /** The direction that a row of an ADD names decides which end of the pair is the source,
      and how the direction is stored. */
  lemma DirectionOfAdd(row: Row, pair: Pair, rs: seq<Relationship>)
    requires Expand(row, pair, rs).Expanded? && row.operation == ADD
    ensures var d := Expand(row, pair, rs).decision;
      && (row.direction == Some(LEFT_TO_RIGHT) ==>
        d.source == Some(pair.left) && d.target == Some(pair.right) && d.direction == Some(DIRECTED))
      && (row.direction == Some(RIGHT_TO_LEFT) ==>
        d.source == Some(pair.right) && d.target == Some(pair.left) && d.direction == Some(DIRECTED))
      && (row.direction == Some(BOTH_WAYS) ==>
        d.source == Some(pair.left) && d.target == Some(pair.right) && d.direction == Some(MUTUAL))
      && (row.direction == Some(NO_DIRECTION) ==>
        d.source == Some(pair.left) && d.target == Some(pair.right) && d.direction == Some(UNDIRECTED))
      && (row.direction.None? ==>
        d.source == Some(pair.left) && d.target == Some(pair.right) && d.direction.None?)
  {
  }

  function Opposite(direction: GroupDirection): GroupDirection {
    match direction
    case LEFT_TO_RIGHT => RIGHT_TO_LEFT
    case RIGHT_TO_LEFT => LEFT_TO_RIGHT
    case _ => direction
  }

  /** Naming the opposite direction exchanges the ends of a directed ADD and nothing else; so
      does naming the pair the other way round. */
  lemma OppositeExchangesEnds(row: Row, pair: Pair, rs: seq<Relationship>)
    requires Expand(row, pair, rs).Expanded? && row.operation == ADD
    requires row.direction == Some(LEFT_TO_RIGHT) || row.direction == Some(RIGHT_TO_LEFT)
    ensures var d := Expand(row, pair, rs).decision; var exchanged := d.(source := d.target, target := d.source);
      && Expand(row.(direction := Some(Opposite(row.direction.value))), pair, rs) == Expanded(exchanged)
      && Expand(row, Pair(pair.right, pair.left), rs) == Expanded(exchanged)
  {
  }

  /** Everything that the provider may choose is the row's own. */
  lemma ExpansionKeepsContent(row: Row, pair: Pair, rs: seq<Relationship>)
    requires Expand(row, pair, rs).Expanded?
    ensures var d := Expand(row, pair, rs).decision;
      && d.observationRefs == row.observationRefs && d.operation == row.operation
      && d.relationshipRef == row.relationshipRef && d.present == row.present && d.reason == row.reason
      && (row.operation != MERGE ==> d.labelText == row.labelText && d.summaryText == row.summaryText)
      && (row.operation == ADD || !Mutates(d) ==> d.axis == row.axis && d.kind == row.kind)
  {
  }

  /** When a row is refused. */
  lemma ExpansionIsRefused(row: Row, pair: Pair, rs: seq<Relationship>)
    ensures Expand(row, pair, rs).Refused? <==>
      || row.leaksGroupRef
      || (row.operation == ADD && row.relationshipRef.Some?)
      || (row.operation in {MERGE, UPDATE, END}
        && (row.axis.Some? || row.kind.Some? || row.direction.Some?
          || forall r | r in rs :: Some(r.ref) != row.relationshipRef))
      || (row.operation == MERGE && (row.labelText.Some? || row.summaryText.Some?))
      || (row.operation in {EXCLUDE, HOLD} && row.direction in {Some(LEFT_TO_RIGHT), Some(RIGHT_TO_LEFT)})
  {
    FoundIfThere(rs, row.relationshipRef);
  }

  lemma {:induction false} FoundIfThere(rs: seq<Relationship>, ref: Option<nat>)
    ensures FindRelationship(rs, ref).None? <==> forall r | r in rs :: Some(r.ref) != ref
  {
    if rs != [] {
      FoundIfThere(rs[1..], ref);
      assert rs == [rs[0]] + rs[1..];
    }
  }

  /** An expanded mutation can only concern the group's pair or an owned relationship:
      an ADD joins the pair, a MERGE of an active relationship always passes the
      content checks, and UPDATE and END keep its identity. */
  lemma ExpansionKeepsIdentity(row: Row, pair: Pair, rs: seq<Relationship>)
    requires Expand(row, pair, rs).Expanded?
    ensures var d := Expand(row, pair, rs).decision;
      && (d.operation == ADD ==> {d.source, d.target} == {Some(pair.left), Some(pair.right)})
      && (Mutates(d) && d.operation != ADD ==> exists r :: r in rs && Restores(d, r))
      && (!Mutates(d) ==> d.source.None? && d.target.None?)
  {
    var d := Expand(row, pair, rs).decision;
    if Mutates(d) && d.operation != ADD {
      var r := FindRelationship(rs, row.relationshipRef).value;
      assert r in rs;
    }
  }

  datatype Item = Item(group: Option<nat>, rows: Option<seq<Row>>)

  datatype RawReply = NotJson | NotAnEnvelope | Envelope(items: seq<Item>)

  function ExpandAll(rows: seq<Row>, pair: Pair, rs: seq<Relationship>): (r: (Option<FailureReason>, seq<Decision>))
    ensures r.0.None? ==> |r.1| == |rows|
  {
    if rows == [] then (None, [])
    else match Expand(rows[0], pair, rs)
      case Expanded(d) =>
        var (reason, ds) := ExpandAll(rows[1..], pair, rs);
        (reason, [d] + ds)
      case Refused(reason) =>
        // The schema is only looked at once every row has been expanded.
        var (later, _) := ExpandAll(rows[1..], pair, rs);
        (Some(if reason.Domain? || later.None? then reason else later.value), [])
  }

  // _expand, one field after the other.
  method ExpandRow(row: Row, pair: Pair, rs: seq<Relationship>) returns (e: Expansion)
    ensures e == Expand(row, pair, rs)
  {
    if row.leaksGroupRef {
      return Refused(Domain(DISPLAY_REFERENCE_LEAK));
    }
    var source: Option<Node>, target: Option<Node> := None, None;
    var axis, kind, labelText, summaryText := row.axis, row.kind, row.labelText, row.summaryText;
    var direction: Option<Direction> := None;
    if row.direction == Some(BOTH_WAYS) {
      direction := Some(MUTUAL);
    } else if row.direction == Some(NO_DIRECTION) {
      direction := Some(UNDIRECTED);
    }
    if row.operation == ADD {
      if row.relationshipRef.Some? {
        return Refused(Domain(ADD_SLOT_EXISTS));
      }
      source, target := Some(pair.left), Some(pair.right);
      if row.direction == Some(RIGHT_TO_LEFT) {
        source, target := target, source;
      }
      if row.direction in {Some(LEFT_TO_RIGHT), Some(RIGHT_TO_LEFT)} {
        direction := Some(DIRECTED);
      }
    } else if row.operation in {MERGE, UPDATE, END} {
      var existing := FindRelationship(rs, row.relationshipRef);
      if existing.None? || row.axis.Some? || row.kind.Some? || row.direction.Some? {
        return Refused(Domain(EXISTING_REF_MISMATCH));
      }
      source, target := Some(existing.value.source), Some(existing.value.target);
      axis, kind, direction := Some(existing.value.axis), Some(existing.value.kind), Some(existing.value.direction);
      if row.operation == MERGE {
        if row.labelText.Some? || row.summaryText.Some? {
          return Refused(Domain(MERGE_CONTENT_CHANGED));
        }
        labelText, summaryText := Some(existing.value.labelText), Some(existing.value.summaryText);
      }
    } else if row.direction in {Some(LEFT_TO_RIGHT), Some(RIGHT_TO_LEFT)} {
      // The schema of stored decisions does not know these.
      return Refused(RESPONSE_SCHEMA_INVALID);
    }
    e := Expanded(Decision(row.observationRefs, row.operation, row.relationshipRef, source, target, axis, kind,
                           labelText, summaryText, direction, row.present, row.reason));
  }

  // Every row of a group; the first refusal that is not one of the schema comes first.
  method ExpandRows(rows: seq<Row>, pair: Pair, rs: seq<Relationship>)
    returns (refused: Option<FailureReason>, ds: seq<Decision>)
    ensures refused == ExpandAll(rows, pair, rs).0 && (refused.None? ==> ds == ExpandAll(rows, pair, rs).1)
  {
    hide Expand;
    refused, ds := None, [];
    for i := 0 to |rows|
      invariant refused.Some? ==> !refused.value.Domain?
      invariant var (later, rest) := ExpandAll(rows[i..], pair, rs); var whole := ExpandAll(rows, pair, rs);
        && whole.0 == (if refused.None? || (later.Some? && later.value.Domain?) then later
          else if later.None? then refused else later)
        && (refused.None? && later.None? ==> whole.1 == ds + rest)
    {
      assert rows[i..][0] == rows[i] && rows[i..][1..] == rows[i + 1..];
      var e := ExpandRow(rows[i], pair, rs);
      match e {
        case Expanded(d) => ds := ds + [d];
        case Refused(reason) =>
          if reason.Domain? {
            return Some(reason), [];
          }
          refused := Some(reason);
      }
    }
  }

  /** The rows of a group expand to these decisions exactly if each expands to its own. */
  lemma {:induction false} ExpandsEach(rows: seq<Row>, pair: Pair, rs: seq<Relationship>, ds: seq<Decision>)
    ensures ExpandAll(rows, pair, rs) == (None, ds) <==>
      |ds| == |rows| && forall i | 0 <= i < |rows| :: Expand(rows[i], pair, rs) == Expanded(ds[i])
  {
    hide Expand;
    if rows != [] && ds != [] {
      ExpandsEach(rows[1..], pair, rs, ds[1..]);
      assert ds == [ds[0]] + ds[1..];
    }
  }

  predicate Expands(rows: seq<Row>, g: Group, c: Context, ds: seq<Decision>) {
    ExpandAll(rows, g.pair, Project(c, Related(g)).relationships) == (None, ds)
  }

  // Rows that expand to decisions valid in the group's own context.
  ghost predicate GroupOk(c: Context, g: Group, rows: Option<seq<Row>>) {
    && rows.Some? && |rows.value| <= MAX_DECISIONS
    && var (refused, ds) := ExpandAll(rows.value, g.pair, Project(c, Related(g)).relationships);
       refused.None? && ValidDecisions(ds, Project(c, Related(g)))
  }

  // Why a group's rows are refused: too many or unreadable, a row that does not expand, or
  // a fault of the expanded decisions in the group's own context.
  ghost predicate GroupFault(reason: FailureReason, c: Context, g: Group, rows: Option<seq<Row>>) {
    if rows.None? || |rows.value| > MAX_DECISIONS then reason == RESPONSE_SCHEMA_INVALID
    else
      var (refused, ds) := ExpandAll(rows.value, g.pair, Project(c, Related(g)).relationships);
      if refused.Some? then reason == refused.value
      else reason.Domain? && RejectedFor(reason.reason, ds, Project(c, Related(g)))
  }

  // A group's part of a response, against the group's own context.
  method CheckGroup(c: Context, g: Group, rows: Option<seq<Row>>)
    returns (reason: Option<FailureReason>, ds: seq<Decision>)
    requires ValidContext(c)
    ensures reason.None? <==> GroupOk(c, g, rows)
    ensures reason.Some? ==> GroupFault(reason.value, c, g, rows)
    ensures reason.None? ==> ValidDecisions(ds, Project(c, Related(g))) && |ds| <= MAX_DECISIONS
    ensures reason.None? ==> rows.Some? && Expands(rows.value, g, c, ds)
  {
    if rows.None? || |rows.value| > MAX_DECISIONS {
      return Some(RESPONSE_SCHEMA_INVALID), [];
    }
    ProjectionIsValid(c, Related(g));
    var own := Project(c, g.observations + g.held);
    var refused, expanded := ExpandRows(rows.value, g.pair, own.relationships);
    if refused.Some? {
      return refused, [];
    }
    var problem := ValidateDecisions(expanded, own);
    if problem.Some? {
      return Some(Domain(problem.value)), [];
    }
    return None, expanded;
  }

  ghost predicate AnswersAre(answers: map<nat, seq<Decision>>, groups: seq<Group>, c: Context) {
    forall id | id in answers ::
      id < |groups| && ValidDecisions(answers[id], Project(c, Related(groups[id]))) && |answers[id]| <= MAX_DECISIONS
  }

  // Exactly one item names the group, with these rows.
  ghost predicate OnlyItem(items: seq<Item>, id: nat, rows: Option<seq<Row>>) {
    exists k :: 0 <= k < |items| && items[k] == Item(Some(id), rows)
      && forall l | 0 <= l < |items| && l != k :: items[l].group != Some(id)
  }

  lemma OnlyItemOneMore(items: seq<Item>, item: Item, rows: map<nat, Option<seq<Row>>>, repeated: set<nat>)
    requires item.group.Some? && (item.group.value in rows ==> item.group.value in repeated)
    requires forall k | 0 <= k < |items| :: items[k].group.Some? && items[k].group.value in rows
    requires forall id | id in rows && id !in repeated :: OnlyItem(items, id, rows[id])
    ensures var rows' := rows[item.group.value := item.rows];
      forall id | id in rows' && id !in repeated :: OnlyItem(items + [item], id, rows'[id])
  {
    var rows' := rows[item.group.value := item.rows];
    var more := items + [item];
    forall id | id in rows' && id !in repeated ensures OnlyItem(more, id, rows'[id]) {
      if id == item.group.value {
        assert more[|items|] == Item(Some(id), rows'[id]);
      } else {
        var k :| 0 <= k < |items| && items[k] == Item(Some(id), rows[id])
          && forall l | 0 <= l < |items| && l != k :: items[l].group != Some(id);
        assert more[k] == Item(Some(id), rows'[id]);
      }
    }
  }

  predicate Named(items: seq<Item>, id: nat) {
    exists k :: 0 <= k < |items| && items[k].group == Some(id)
  }

  predicate NamedTwice(items: seq<Item>, id: nat) {
    exists k, l :: 0 <= k < l < |items| && items[k].group == Some(id) && items[l].group == Some(id)
  }

  // A row names a group that was not asked for, or none.
  predicate NamesOther(items: seq<Item>, ids: seq<nat>) {
    exists k :: 0 <= k < |items| && (items[k].group.None? || items[k].group.value !in ids)
  }

  lemma OnlyItemIsIndexed(items: seq<Item>, id: nat, rows: Option<seq<Row>>, indexed: map<nat, Option<seq<Row>>>,
                          repeated: set<nat>)
    requires forall k | 0 <= k < |items| :: items[k].group.Some? && items[k].group.value in indexed
    requires forall other | other in repeated :: NamedTwice(items, other)
    requires forall other | other in indexed && other !in repeated :: OnlyItem(items, other, indexed[other])
    requires OnlyItem(items, id, rows)
    ensures id in indexed && id !in repeated && indexed[id] == rows
  {
    var k :| 0 <= k < |items| && items[k] == Item(Some(id), rows)
      && forall l | 0 <= l < |items| && l != k :: items[l].group != Some(id);
    if id !in repeated {
      var l :| 0 <= l < |items| && items[l] == Item(Some(id), indexed[id]);
    }
  }

  // The items seen so far: each group once with its rows, and the repeated ones.
  ghost predicate Indexing(items: seq<Item>, ids: seq<nat>, rows: map<nat, Option<seq<Row>>>, repeated: set<nat>) {
    && repeated <= SetOf(ids)
    && (forall k | 0 <= k < |items| ::
      items[k].group.Some? && items[k].group.value in ids && items[k].group.value in rows)
    && (forall id | id in rows && id !in repeated :: OnlyItem(items, id, rows[id]))
    && (forall id | id in rows :: Named(items, id))
    && (forall id | id in repeated :: NamedTwice(items, id))
  }

  lemma NamedOneMore(items: seq<Item>, item: Item, id: nat)
    ensures Named(items + [item], id) <==> Named(items, id) || item.group == Some(id)
    ensures NamedTwice(items, id) || (Named(items, id) && item.group == Some(id)) ==> NamedTwice(items + [item], id)
  {
    var more := items + [item];
    if k :| 0 <= k < |items| && items[k].group == Some(id) {
      assert more[k].group == Some(id);
      assert item.group == Some(id) ==> more[|items|].group == Some(id);
    }
    if k, l :| 0 <= k < l < |items| && items[k].group == Some(id) && items[l].group == Some(id) {
      assert more[k].group == Some(id) && more[l].group == Some(id);
    }
    if item.group == Some(id) { assert more[|items|].group == Some(id); }
  }

  lemma IndexingOneMore(items: seq<Item>, item: Item, ids: seq<nat>, rows: map<nat, Option<seq<Row>>>,
                        repeated: set<nat>)
    requires Indexing(items, ids, rows, repeated) && item.group.Some? && item.group.value in ids
    ensures var id := item.group.value;
      Indexing(items + [item], ids, rows[id := item.rows], if id in rows then repeated + {id} else repeated)
  {
    hide OnlyItem, Named, NamedTwice;
    var id := item.group.value;
    var again := if id in rows then repeated + {id} else repeated;
    OnlyItemOneMore(items, item, rows, again);
    forall other: nat
      ensures Named(items + [item], other) <==> Named(items, other) || item.group == Some(other)
      ensures NamedTwice(items, other) || (Named(items, other) && item.group == Some(other)) ==>
        NamedTwice(items + [item], other)
    {
      NamedOneMore(items, item, other);
    }
  }

  lemma IndexedOnce(items: seq<Item>, ids: seq<nat>, rows: map<nat, Option<seq<Row>>>, repeated: set<nat>)
    requires Indexing(items, ids, rows, repeated)
    ensures !NamesOther(items, ids) && forall id | Named(items, id) :: id in rows
    ensures forall id, own | OnlyItem(items, id, own) :: id in rows && id !in repeated && rows[id] == own
  {
    forall id, own | OnlyItem(items, id, own) ensures id in rows && id !in repeated && rows[id] == own {
      OnlyItemIsIndexed(items, id, own, rows, repeated);
    }
  }

  // The rows offered for each requested group; no result when a row names any other group.
  method IndexItems(items: seq<Item>, ids: seq<nat>)
    returns (indexed: Option<map<nat, Option<seq<Row>>>>, repeated: set<nat>)
    ensures repeated <= SetOf(ids)
    ensures indexed.None? <==> NamesOther(items, ids)
    ensures indexed.Some? ==>
      forall id, rows | OnlyItem(items, id, rows) ::
        id in indexed.value && id !in repeated && indexed.value[id] == rows
    ensures indexed.Some? ==> forall id | id in repeated :: NamedTwice(items, id)
    ensures indexed.Some? ==> forall id | Named(items, id) :: id in indexed.value
    ensures indexed.Some? ==>
      forall id | id in indexed.value && id !in repeated :: OnlyItem(items, id, indexed.value[id])
  {
    hide OnlyItem, Named, NamedTwice, Indexing;
    var rows: map<nat, Option<seq<Row>>> := map[];
    repeated := {};
    NothingIndexed(ids);
    for i := 0 to |items|
      invariant Indexing(items[..i], ids, rows, repeated)
    {
      var item := items[i];
      assert items[..i + 1] == items[..i] + [item];
      if item.group.None? || item.group.value !in ids {
        return None, {};
      }
      IndexingOneMore(items[..i], item, ids, rows, repeated);
      if item.group.value in rows {
        repeated := repeated + {item.group.value};
      }
      rows := rows[item.group.value := item.rows];
    }
    assert items[..|items|] == items;
    IndexedOnce(items, ids, rows, repeated);
    IndexingFacts(items, ids, rows, repeated);
    indexed := Some(rows);
  }

  lemma NothingIndexed(ids: seq<nat>)
    ensures Indexing([], ids, map[], {})
  {
  }

  lemma IndexingFacts(items: seq<Item>, ids: seq<nat>, rows: map<nat, Option<seq<Row>>>, repeated: set<nat>)
    requires Indexing(items, ids, rows, repeated)
    ensures repeated <= SetOf(ids) && forall id | id in repeated :: NamedTwice(items, id)
    ensures forall id | id in rows && id !in repeated :: OnlyItem(items, id, rows[id])
  {
  }

  // Every requested group is answered with decisions valid in its own context, or not at all.
  ghost predicate Answered(valid: map<nat, seq<Decision>>, invalid: map<nat, FailureReason>, c: Context,
                           groups: seq<Group>, ids: set<nat>) {
    && valid.Keys !! invalid.Keys && valid.Keys + invalid.Keys == ids
    && AnswersAre(valid, groups, c)
  }

  // An accepted answer is the expansion of the one item that names the group.
  ghost predicate FromReply(valid: map<nat, seq<Decision>>, reply: RawReply, c: Context, groups: seq<Group>) {
    forall id | id in valid :: id < |groups| && reply.Envelope? && exists rows ::
      OnlyItem(reply.items, id, Some(rows)) && Expands(rows, groups[id], c, valid[id])
  }

  function AllFail(ids: seq<nat>, reason: FailureReason): map<nat, FailureReason> {
    map id | id in ids :: reason
  }

  ghost predicate FromRows(valid: map<nat, seq<Decision>>, indexed: map<nat, Option<seq<Row>>>, repeated: set<nat>,
                           c: Context, groups: seq<Group>) {
    forall id | id in valid ::
      && id < |groups| && id !in repeated && id in indexed && indexed[id].Some?
      && Expands(indexed[id].value, groups[id], c, valid[id])
  }

  ghost predicate RowFits(id: nat, indexed: map<nat, Option<seq<Row>>>, repeated: set<nat>, c: Context,
                          groups: seq<Group>)
  {
    id < |groups| && id !in repeated && id in indexed && GroupOk(c, groups[id], indexed[id])
  }

  // Why a requested group is not answered.
  ghost predicate RowFault(reason: FailureReason, id: nat, indexed: map<nat, Option<seq<Row>>>, repeated: set<nat>,
                           c: Context, groups: seq<Group>)
  {
    if id in repeated then reason == GROUP_REFS_INVALID
    else if id !in indexed then reason == GROUP_MISSING
    else id < |groups| && GroupFault(reason, c, groups[id], indexed[id])
  }

  ghost predicate Checked(valid: map<nat, seq<Decision>>, invalid: map<nat, FailureReason>, done: set<nat>,
                          indexed: map<nat, Option<seq<Row>>>, repeated: set<nat>, c: Context, groups: seq<Group>) {
    && Answered(valid, invalid, c, groups, done) && FromRows(valid, indexed, repeated, c, groups)
      && repeated <= invalid.Keys
    && (forall id | id in done :: id in valid <==> RowFits(id, indexed, repeated, c, groups))
    && (forall id | id in invalid :: RowFault(invalid[id], id, indexed, repeated, c, groups))
  }

  lemma CheckedInvalid(valid: map<nat, seq<Decision>>, invalid: map<nat, FailureReason>, done: set<nat>, id: nat,
                       reason: FailureReason, indexed: map<nat, Option<seq<Row>>>, repeated: set<nat>, c: Context,
                       groups: seq<Group>)
    requires Checked(valid, invalid, done, indexed, repeated, c, groups)
    ensures id in valid || id in invalid ==> id in done
    ensures
      id !in valid && !RowFits(id, indexed, repeated, c, groups)
      && RowFault(reason, id, indexed, repeated, c, groups) ==>
      Checked(valid, invalid[id := reason], done + {id}, indexed, repeated, c, groups)
  {
    hide Expands, ValidDecisions, Project, GroupOk, RowFault;
  }

  lemma CheckedValid(valid: map<nat, seq<Decision>>, invalid: map<nat, FailureReason>, done: set<nat>, id: nat,
                     ds: seq<Decision>, indexed: map<nat, Option<seq<Row>>>, repeated: set<nat>, c: Context,
                     groups: seq<Group>)
    requires Checked(valid, invalid, done, indexed, repeated, c, groups) && id < |groups| && id !in invalid
    requires id in indexed && indexed[id].Some? && Expands(indexed[id].value, groups[id], c, ds)
    requires ValidDecisions(ds, Project(c, Related(groups[id]))) && |ds| <= MAX_DECISIONS
      && RowFits(id, indexed, repeated, c, groups)
    ensures Checked(valid[id := ds], invalid, done + {id}, indexed, repeated, c, groups)
  {
    hide Expands, ValidDecisions, Project, GroupOk, RowFault;
  }

  method CheckAll(c: Context, groups: seq<Group>, ids: seq<nat>, indexed: map<nat, Option<seq<Row>>>,
                  repeated: set<nat>)
    returns (valid: map<nat, seq<Decision>>, invalid: map<nat, FailureReason>)
    requires ValidContext(c) && repeated <= SetOf(ids) && forall id | id in ids :: id < |groups|
    ensures Answered(valid, invalid, c, groups, SetOf(ids)) && FromRows(valid, indexed, repeated, c, groups)
    ensures forall id | id in ids :: id in valid <==> RowFits(id, indexed, repeated, c, groups)
    ensures forall id | id in invalid :: RowFault(invalid[id], id, indexed, repeated, c, groups)
  {
    hide Expands, ValidContext, ValidDecisions, Project, AnswersAre, FromRows, GroupOk, GroupFault;
    valid, invalid := map[], map id | id in repeated :: GROUP_REFS_INVALID;
    ghost var done := repeated;
    NothingChecked(invalid, indexed, repeated, c, groups);
    for i := 0 to |ids|
      invariant Checked(valid, invalid, done, indexed, repeated, c, groups)
      invariant done == repeated + SetOf(ids[..i])
    {
      var id := ids[i];
      assert id in ids && ids[..i + 1] == ids[..i] + [id];
      CheckedInvalid(valid, invalid, done, id, GROUP_MISSING, indexed, repeated, c, groups);
      if id !in invalid && id !in valid {
        if id !in indexed {
          invalid := invalid[id := GROUP_MISSING];
        } else {
          var reason, ds := CheckGroup(c, groups[id], indexed[id]);
          if reason.Some? {
            CheckedInvalid(valid, invalid, done, id, reason.value, indexed, repeated, c, groups);
            invalid := invalid[id := reason.value];
          } else {
            CheckedValid(valid, invalid, done, id, ds, indexed, repeated, c, groups);
            valid := valid[id := ds];
          }
        }
      }
      assert id in done ==> done + {id} == done;
      assert SetOf(ids[..i + 1]) == SetOf(ids[..i]) + {id};
      done := done + {id};
    }
    assert ids[..|ids|] == ids && done == SetOf(ids);
    assert forall id | id in ids :: id in done;
  }

  lemma NothingChecked(invalid: map<nat, FailureReason>, indexed: map<nat, Option<seq<Row>>>, repeated: set<nat>,
                       c: Context, groups: seq<Group>)
    requires invalid.Keys == repeated && forall id | id in invalid :: invalid[id] == GROUP_REFS_INVALID
    ensures Checked(map[], invalid, repeated, indexed, repeated, c, groups)
  {
  }

  // The reply names no group but those asked for, this one once, with rows that are valid for it.
  ghost predicate Deserves(id: nat, reply: RawReply, c: Context, groups: seq<Group>, ids: seq<nat>) {
    && id < |groups| && reply.Envelope? && !NamesOther(reply.items, ids)
    && exists rows :: OnlyItem(reply.items, id, rows) && GroupOk(c, groups[id], rows)
  }

  lemma FitsIsDeserved(id: nat, reply: RawReply, c: Context, groups: seq<Group>, ids: seq<nat>,
                       indexed: map<nat, Option<seq<Row>>>, repeated: set<nat>)
    requires reply.Envelope? && !NamesOther(reply.items, ids)
    requires forall id | id in indexed && id !in repeated :: OnlyItem(reply.items, id, indexed[id])
    requires forall id, rows | OnlyItem(reply.items, id, rows) ::
      id in indexed && id !in repeated && indexed[id] == rows
    ensures RowFits(id, indexed, repeated, c, groups) <==> Deserves(id, reply, c, groups, ids)
  {
    hide OnlyItem, GroupOk, NamesOther;
    if RowFits(id, indexed, repeated, c, groups) {
      assert OnlyItem(reply.items, id, indexed[id]);
    }
  }

  // Why a reply leaves a requested group unanswered.
  ghost predicate CallFault(reason: FailureReason, id: nat, reply: RawReply, c: Context, groups: seq<Group>,
                            ids: seq<nat>)
  {
    match reply
    case NotJson => reason == RESPONSE_JSON_INVALID
    case NotAnEnvelope => reason == RESPONSE_SCHEMA_INVALID
    case Envelope(items) =>
      if NamesOther(items, ids) || NamedTwice(items, id) then reason == GROUP_REFS_INVALID
      else if !Named(items, id) then reason == GROUP_MISSING
      else exists rows :: OnlyItem(items, id, rows) && id < |groups| && GroupFault(reason, c, groups[id], rows)
  }

  lemma OnlyOneIsOnly(items: seq<Item>, id: nat, rows: Option<seq<Row>>)
    requires OnlyItem(items, id, rows)
    ensures Named(items, id) && !NamedTwice(items, id)
  {
    var k :| 0 <= k < |items| && items[k] == Item(Some(id), rows)
      && forall l | 0 <= l < |items| && l != k :: items[l].group != Some(id);
  }

  lemma RowFaultIsCallFault(reason: FailureReason, id: nat, items: seq<Item>, c: Context, groups: seq<Group>,
                            ids: seq<nat>, indexed: map<nat, Option<seq<Row>>>, repeated: set<nat>)
    requires !NamesOther(items, ids) && RowFault(reason, id, indexed, repeated, c, groups)
    requires forall other | other in repeated :: NamedTwice(items, other)
    requires forall other | other in indexed && other !in repeated :: OnlyItem(items, other, indexed[other])
    requires forall other | Named(items, other) :: other in indexed
    ensures CallFault(reason, id, Envelope(items), c, groups, ids)
  {
    hide OnlyItem, GroupFault, NamesOther, Named, NamedTwice;
    if id !in repeated {
      if id in indexed {
        OnlyOneIsOnly(items, id, indexed[id]);
      } else if NamedTwice(items, id) {
        TwiceIsNamed(items, id);
      }
    }
  }

  lemma TwiceIsNamed(items: seq<Item>, id: nat)
    requires NamedTwice(items, id)
    ensures Named(items, id)
  {
  }

  /** One call: each requested group comes back either with decisions valid in its own
      context or with a reason, whatever the response looks like; with decisions exactly if
      the response deserves it, and with a reason that is a fault of the response. */
  method Call(c: Context, groups: seq<Group>, ids: seq<nat>, reply: RawReply)
    returns (valid: map<nat, seq<Decision>>, invalid: map<nat, FailureReason>)
    requires ValidContext(c) && forall id | id in ids :: id < |groups|
    ensures Answered(valid, invalid, c, groups, SetOf(ids)) && FromReply(valid, reply, c, groups)
    ensures forall id | id in ids :: id in valid <==> Deserves(id, reply, c, groups, ids)
    ensures forall id | id in invalid :: CallFault(invalid[id], id, reply, c, groups, ids)
  {
    hide OnlyItem, Expands, ValidContext, ValidDecisions, Project, GroupOk, NamesOther, RowFits, RowFault, GroupFault,
      Named, NamedTwice;
    if reply.NotJson? {
      return map[], AllFail(ids, RESPONSE_JSON_INVALID);
    }
    if reply.NotAnEnvelope? {
      return map[], AllFail(ids, RESPONSE_SCHEMA_INVALID);
    }
    var indexed, repeated := IndexItems(reply.items, ids);
    if indexed.None? {
      return map[], AllFail(ids, GROUP_REFS_INVALID);
    }
    valid, invalid := CheckAll(c, groups, ids, indexed.value, repeated);
    forall id | id in ids ensures id in valid <==> Deserves(id, reply, c, groups, ids) {
      FitsIsDeserved(id, reply, c, groups, ids, indexed.value, repeated);
    }
    forall id | id in invalid ensures CallFault(invalid[id], id, reply, c, groups, ids) {
      RowFaultIsCallFault(invalid[id], id, reply.items, c, groups, ids, indexed.value, repeated);
    }
  }
}
