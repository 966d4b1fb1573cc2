/**
 The driver of app/analysis/world_setting_batch_recovery.py: salvage, regrouping with one
 retry for each failed component, and the fixpoint that fails dependents of failures.
 */
module WorldRecoveryDriver {
  import opened Options
  import opened Sequences
  import opened WorldScopePlan
  import opened WorldBatchValidator
  import opened WorldComponents
  import opened WorldRecoveryGroups
  import opened WorldRecovery

  // ----- groups of the rejected response ---------------------------------------------

  // One row of the rejected response: the references it names, its decision if it can be
  // parsed, and what its known paths and scopes add to the group's footprint.
  datatype Row = Row(refs: seq<Ref>, parsed: Option<Decision>, scopes: set<Scope>, readSet: set<Touch>,
    writeSet: set<Touch>)

  // The decision of a row, as far as the response schema can read it.
  ghost function Readable(row: Row): seq<Decision> {
    if row.parsed.Some? && SchemaOk([row.parsed.value]) then [row.parsed.value] else []
  }

  // The group of a row: its decision if that is valid for the candidates the row names.
  ghost function RowView(q: Request, row: Row, source: seq<Candidate>): GroupView {
    var ok := Readable(row) != [] && Accepted(Readable(row), source, q.trees, q.policy, false);
    var ds := if ok then ProjectedAll(Readable(row), source) else Readable(row);
    GroupView(source, ds, !ok, row.scopes + GeneratedBy(ds, source), row.readSet, row.writeSet)
  }

  method GroupOfRow(q: Request, row: Row, source: seq<Candidate>) returns (g: Group)
    requires ValidRequest(q) && source != [] && DistinctRefs(source) && Refs(source) <= Refs(q.candidates)
    ensures fresh(g) && g.candidates == source && g.View() == RowView(q, row, source) && Sound(g.View(), q.candidates)
  {
    hide Accepted, Refs, DistinctRefs;
    g := new Group(source);
    g.RecordDependencies(row.scopes, row.readSet, row.writeSet);
    var ok := false;
    if row.parsed.Some? {
      var typed := CheckSchema([row.parsed.value]);
      if typed {
        g.decisions := [row.parsed.value];
        ok := ValidateBatch(g.decisions, source, q.trees, q.policy, false);
      }
    }
    if ok {
      AcceptedIsCovered(g.decisions, source, q.trees, q.policy, false);
      g.decisions := ProjectedAll(g.decisions, source);
    } else {
      g.Fail();
    }
    var generated := CollectGenerated(g.decisions, source);
    g.generatedScopes := g.generatedScopes + generated;
  }

  function NamedBy(q: Request, row: Row): seq<Candidate> {
    Select(q.candidates, SetOf(row.refs))
  }

  // One group for each row that names a candidate.
  ghost function RowViews(q: Request, rows: seq<Row>): seq<GroupView> {
    if rows == [] then []
    else
      var row := rows[|rows| - 1];
      RowViews(q, rows[..|rows| - 1]) + (if NamedBy(q, row) == [] then [] else [RowView(q, row, NamedBy(q, row))])
  }

  lemma {:induction false} AllRefsMore(vs: seq<GroupView>, v: GroupView)
    ensures AllRefs(vs + [v]) == AllRefs(vs) + Refs(v.candidates)
    decreases |vs|
  {
    if vs == [] {
      assert vs + [v] == [v];
    } else {
      AllRefsMore(vs[1..], v);
      assert (vs + [v])[1..] == vs[1..] + [v];
    }
  }

  lemma ViewsMore(groups: seq<Group>, g: Group)
    ensures Views(groups + [g]) == Views(groups) + [g.View()]
  {
  }

  lemma NoRowNoView(q: Request, rows: seq<Row>)
    requires rows == []
    ensures RowViews(q, rows) == []
  {
  }

  lemma RowViewsMore(q: Request, rows: seq<Row>, i: nat)
    requires i < |rows|
    ensures RowViews(q, rows[..i + 1]) == RowViews(q, rows[..i])
      + (if NamedBy(q, rows[i]) == [] then [] else [RowView(q, rows[i], NamedBy(q, rows[i]))])
  {
    hide RowView;
    assert rows[..i + 1][..i] == rows[..i] && rows[..i + 1][i] == rows[i];
  }

  method GroupsOfRows(q: Request, rows: seq<Row>) returns (groups: seq<Group>, covered: set<Ref>)
    requires ValidRequest(q)
    ensures Distinct(groups) && fresh(groups) && Views(groups) == RowViews(q, rows)
    ensures AllSound(Views(groups), q.candidates) && AllRefs(Views(groups)) == covered <= Refs(q.candidates)
  {
    hide Sound, Refs, DistinctRefs, RowView, RowViews, Select;
    groups, covered := [], {};
    assert RowViews(q, rows[..0]) == [] by { NoRowNoView(q, rows[..0]); }
    for i := 0 to |rows|
      invariant Distinct(groups) && fresh(groups) && Views(groups) == RowViews(q, rows[..i])
      invariant AllSound(Views(groups), q.candidates) && AllRefs(Views(groups)) == covered <= Refs(q.candidates)
    {
      RowViewsMore(q, rows, i);
      assert RowViews(q, rows[..i]) + [] == RowViews(q, rows[..i]);
      var source := Select(q.candidates, SetOf(rows[i].refs));
      SelectRefs(q.candidates, SetOf(rows[i].refs));
      SelectDistinct(q.candidates, SetOf(rows[i].refs));
      if source != [] {
        var g := GroupOfRow(q, rows[i], source);
        AllRefsMore(Views(groups), g.View());
        ViewsMore(groups, g);
        groups, covered := groups + [g], covered + Refs(source);
      }
    }
    assert rows[..|rows|] == rows;
  }

  function Rest(missing: seq<Candidate>): (others: seq<Candidate>)
    ensures missing != [] ==> |others| < |missing|
  {
    if missing == [] then []
    else
      var here := SamePath(missing, missing[0].path);
      SelectShrinks(missing, Refs(missing) - here);
      Select(missing, Refs(missing) - here)
  }

  // One failed group for each path of the candidates that no row names.
  function MissingViews(missing: seq<Candidate>): seq<GroupView>
    decreases |missing|
  {
    if missing == [] then []
    else
      [GroupView(Select(missing, SamePath(missing, missing[0].path)), [], true, {}, {}, {})]
      + MissingViews(Rest(missing))
  }

  lemma MissingUnfolds(missing: seq<Candidate>)
    requires missing != []
    ensures var here := SamePath(missing, missing[0].path);
      && MissingViews(missing) == [GroupView(Select(missing, here), [], true, {}, {}, {})]
        + MissingViews(Select(missing, Refs(missing) - here))
      && |Select(missing, Refs(missing) - here)| < |missing|
      && Select(missing, here) != []
      && Refs(Select(missing, here)) == here && Refs(Select(missing, Refs(missing) - here)) == Refs(missing) - here
      && here <= Refs(missing)
  {
    var here := SamePath(missing, missing[0].path);
    SelectRefs(missing, here);
    SelectRefs(missing, Refs(missing) - here);
    FirstIsSelected(missing, here);
    SelectShrinks(missing, Refs(missing) - here);
  }

  lemma NothingMissing()
    ensures MissingViews([]) == [] && Refs([]) == {} && AllRefs([]) == {}
  {
    NoRefs();
  }

  method GroupsOfMissing(q: Request, unnamed: seq<Candidate>) returns (groups: seq<Group>)
    requires DistinctRefs(unnamed) && Refs(unnamed) <= Refs(q.candidates)
    ensures Distinct(groups) && fresh(groups) && Views(groups) == MissingViews(unnamed)
    ensures AllSound(Views(groups), q.candidates) && AllRefs(Views(groups)) == Refs(unnamed)
  {
    hide Sound, Refs, DistinctRefs, MissingViews, SamePath, Select, AllRefs;
    groups := [];
    NothingMissing();
    var missing := unnamed;
    while missing != []
      invariant Distinct(groups) && fresh(groups)
      invariant AllSound(Views(groups), q.candidates) && DistinctRefs(missing)
      invariant AllRefs(Views(groups)) + Refs(missing) == Refs(unnamed)
      invariant Views(groups) + MissingViews(missing) == MissingViews(unnamed)
      decreases |missing|
    {
      var here := SamePath(missing, missing[0].path);
      var source, others := Select(missing, here), Select(missing, Refs(missing) - here);
      MissingUnfolds(missing);
      SelectDistinct(missing, here);
      SelectDistinct(missing, Refs(missing) - here);
      var g := new Group(source);
      g.Fail();
      MissingIsSound(g.View(), q.candidates);
      AllRefsMore(Views(groups), g.View());
      ViewsMore(groups, g);
      assert Views(groups) + ([g.View()] + MissingViews(others)) == Views(groups) + [g.View()] + MissingViews(others);
      groups, missing := groups + [g], others;
    }
  }

  function Unnamed(q: Request, rows: seq<Row>): seq<Candidate> {
    Select(q.candidates, set a | a in Refs(q.candidates) && forall row | row in rows :: a !in row.refs)
  }

  lemma RowViewNames(q: Request, row: Row, source: seq<Candidate>)
    ensures RowView(q, row, source).candidates == source
  {
  }

  lemma {:induction false} RowsCover(q: Request, rows: seq<Row>)
    ensures AllRefs(RowViews(q, rows)) == set a | a in Refs(q.candidates) && exists row :: row in rows && a in row.refs
    decreases |rows|
  {
    hide Refs, RowView, Select;
    if rows != [] {
      var less, row := rows[..|rows| - 1], rows[|rows| - 1];
      RowsCover(q, less);
      SelectRefs(q.candidates, SetOf(row.refs));
      assert rows == less + [row];
      if NamedBy(q, row) != [] {
        AllRefsMore(RowViews(q, less), RowView(q, row, NamedBy(q, row)));
        assert RowView(q, row, NamedBy(q, row)).candidates ==
          NamedBy(q, row) by { RowViewNames(q, row, NamedBy(q, row)); }
      } else {
        assert Refs(NamedBy(q, row)) == {} by { NoRefs(); }
        assert RowViews(q, less) + [] == RowViews(q, less);
      }
      assert AllRefs(RowViews(q, rows)) == AllRefs(RowViews(q, less)) + Refs(q.candidates) * SetOf(row.refs);
    }
  }

  /** The groups of the rows, and groups that have failed for the candidates that no row
      names: together they account for every candidate. */
  method GroupsFromRows(q: Request, rows: seq<Row>) returns (groups: seq<Group>)
    requires ValidRequest(q)
    ensures Distinct(groups) && fresh(groups)
    ensures Views(groups) == RowViews(q, rows) + MissingViews(Unnamed(q, rows))
    ensures AllSound(Views(groups), q.candidates) && AllRefs(Views(groups)) == Refs(q.candidates)
  {
    hide Sound, Refs, DistinctRefs, AllRefs, RowViews, MissingViews;
    var covered;
    groups, covered := GroupsOfRows(q, rows);
    RowsCover(q, rows);
    assert (set a | a in Refs(q.candidates) && forall row | row in rows :: a !in row.refs) ==
      Refs(q.candidates) - covered;
    var missing := Select(q.candidates, Refs(q.candidates) - covered);
    SelectRefs(q.candidates, Refs(q.candidates) - covered);
    SelectDistinct(q.candidates, Refs(q.candidates) - covered);
    ghost var named := Views(groups);
    var unnamed := GroupsOfMissing(q, missing);
    assert Views(groups) == named && Views(groups + unnamed) == Views(groups) + Views(unnamed);
    AllRefsConcat(Views(groups), Views(unnamed));
    DistinctConcat(groups, unnamed);
    groups := groups + unnamed;
  }

  lemma {:induction false} AllRefsConcat(a: seq<GroupView>, b: seq<GroupView>)
    ensures AllRefs(a + b) == AllRefs(a) + AllRefs(b)
  {
    if a == [] {
      assert a + b == b;
    } else {
      AllRefsConcat(a[1..], b);
      assert (a + b)[1..] == a[1..] + b;
    }
  }

  // The references of the candidates with the same path.
  function SamePath(cands: seq<Candidate>, path: Path): (refs: set<Ref>)
    ensures refs <= Refs(cands)
    ensures cands != [] && cands[0].path == path ==> cands[0].ref in refs
  {
    set k | 0 <= k < |cands| && cands[k].path == path :: cands[k].ref
  }

  lemma FirstIsSelected(cands: seq<Candidate>, refs: set<Ref>)
    requires cands != [] && cands[0].ref in refs
    ensures Select(cands, refs) != [] && Select(cands, Refs(cands) - refs) == Select(cands[1..], Refs(cands) - refs)
  {
    assert [] + Select(cands[1..], Refs(cands) - refs) == Select(cands[1..], Refs(cands) - refs);
  }

  lemma {:induction false} SelectShrinks(cands: seq<Candidate>, refs: set<Ref>)
    ensures |Select(cands, refs)| <= |cands|
    ensures cands != [] && cands[0].ref !in refs ==> |Select(cands, refs)| < |cands|
    decreases |cands|
  {
    if cands != [] { SelectShrinks(cands[1..], refs); }
  }

  lemma MissingIsSound(v: GroupView, cands: seq<Candidate>)
    requires v.candidates != [] && DistinctRefs(v.candidates) && Refs(v.candidates) <= Refs(cands) && v.failed
    ensures Sound(v, cands)
  {
  }

  // ----- duplicated sources -------------------------------------------------------------

  // Groups that share a candidate have all failed.
  ghost predicate Exclusive(vs: seq<GroupView>) {
    forall i, j :: 0 <= i < j < |vs| ==>
      Refs(vs[i].candidates) !! Refs(vs[j].candidates) || (vs[i].failed && vs[j].failed)
  }

  lemma FailingIsExclusive(vs: seq<GroupView>, chosen: set<nat>)
    requires Exclusive(vs)
    ensures Exclusive(Failing(vs, chosen))
  {
    hide Refs;
  }

  // The groups that share a candidate with another one.
  function Sharing(vs: seq<GroupView>): set<nat> {
    set i: nat | i < |vs| && exists j | 0 <= j < |vs| :: j != i && Refs(vs[i].candidates) * Refs(vs[j].candidates) != {}
  }

  lemma BothShare(vs: seq<GroupView>, i: nat, j: nat)
    requires i < |vs| && j < |vs| && i != j && Refs(vs[i].candidates) * Refs(vs[j].candidates) != {}
    ensures i in Sharing(vs) && j in Sharing(vs)
  {
    hide Refs;
    assert Refs(vs[j].candidates) * Refs(vs[i].candidates) == Refs(vs[i].candidates) * Refs(vs[j].candidates);
  }

  // The indices of groups that share a candidate with an earlier or later group below the bounds.
  ghost predicate Marked(vs: seq<GroupView>, chosen: set<nat>, i: nat, j: nat) {
    forall a: nat, b: nat |
      a < b < |vs| && (a < i || (a == i && b < j)) && Refs(vs[a].candidates) * Refs(vs[b].candidates) != {} ::
      a in chosen && b in chosen
  }

  // Group i against every later one.
  method FailSharing(groups: seq<Group>, i: nat, ghost vs: seq<GroupView>, ghost before: set<nat>)
    returns (ghost chosen: set<nat>)
    requires Distinct(groups) && i < |groups|
    requires Views(groups) == Failing(vs, before) && Marked(vs, before, i, i + 1) && before <= Sharing(vs)
    modifies groups
    ensures Views(groups) == Failing(vs, chosen) && Marked(vs, chosen, i + 1, 0) && chosen <= Sharing(vs)
  {
    hide Refs, Sharing;
    chosen := before;
    for j := i + 1 to |groups|
      invariant Views(groups) == Failing(vs, chosen) && Marked(vs, chosen, i, j) && chosen <= Sharing(vs)
    {
      SameCandidates(groups, vs, chosen, i, j);
      var both: set<nat> := {i, j};
      if Refs(groups[i].candidates) * Refs(groups[j].candidates) != {} {
        FailAll(groups, both);
        FailingTwice(vs, chosen, both);
        BothShare(vs, i, j);
        chosen := chosen + both;
      }
    }
  }

  lemma SameCandidates(groups: seq<Group>, vs: seq<GroupView>, chosen: set<nat>, i: nat, j: nat)
    requires i < |groups| && j < |groups| && Views(groups) == Failing(vs, chosen)
    ensures groups[i].candidates == vs[i].candidates && groups[j].candidates == vs[j].candidates
  {
    assert Views(groups)[i] == Failing(vs, chosen)[i] && Views(groups)[j] == Failing(vs, chosen)[j];
  }

  // Exactly the groups that share a candidate fail.
  method FailDuplicates(groups: seq<Group>)
    requires Distinct(groups)
    modifies groups
    ensures Views(groups) == Failing(old(Views(groups)), Sharing(old(Views(groups))))
    ensures Exclusive(Views(groups))
  {
    hide Refs, Sharing;
    ghost var vs := Views(groups);
    ghost var chosen: set<nat> := {};
    assert Failing(vs, {}) == vs;
    for i := 0 to |groups|
      invariant Views(groups) == Failing(vs, chosen) && Marked(vs, chosen, i, 0) && chosen <= Sharing(vs)
    {
      assert Marked(vs, chosen, i, i + 1);
      chosen := FailSharing(groups, i, vs, chosen);
    }
    MarkedIsExclusive(vs, chosen);
    AllSharingMarked(vs, chosen);
  }

  lemma AllSharingMarked(vs: seq<GroupView>, chosen: set<nat>)
    requires Marked(vs, chosen, |vs|, 0)
    ensures Sharing(vs) <= chosen
  {
    hide Refs;
    forall i | i in Sharing(vs) ensures i in chosen {
      var j :| 0 <= j < |vs| && j != i && Refs(vs[i].candidates) * Refs(vs[j].candidates) != {};
      assert Refs(vs[j].candidates) * Refs(vs[i].candidates) == Refs(vs[i].candidates) * Refs(vs[j].candidates);
    }
  }

  lemma MarkedIsExclusive(vs: seq<GroupView>, chosen: set<nat>)
    requires Marked(vs, chosen, |vs|, 0)
    ensures Exclusive(Failing(vs, chosen))
  {
    hide Refs;
    var failing := Failing(vs, chosen);
    forall i: nat, j: nat | i < j < |vs|
      ensures Refs(failing[i].candidates) !! Refs(failing[j].candidates) || (failing[i].failed && failing[j].failed)
    {
      var l, r := Refs(vs[i].candidates), Refs(vs[j].candidates);
      assert failing[i].candidates == vs[i].candidates && failing[j].candidates == vs[j].candidates;
      assert forall a :: a in l && a in r ==> a in l * r;
      if Refs(vs[i].candidates) * Refs(vs[j].candidates) != {} {
        assert i in chosen && j in chosen;
      }
    }
  }
}
