/**
 Resolving the subjects of one manuscript in a batch, from app/analysis/world_subject_batch.py:
 replaying a reply over the state of known subjects, and halving a segment that fails.
 */
module SubjectReplay {
  import opened Options
  import opened Sequences

  type Category(==, !new)

  type Span(==, !new)

  type Proofs(==, !new)

  // A known subject of the request, or the one that the numbered candidate created.
  datatype SubjectRef = Known(number: nat) | New(number: nat)

  datatype SubjectKey = Stored(id: nat) | Provisional(candidate: nat)

  datatype Subject = Subject(category: Category, key: SubjectKey, evidence: set<Span>)

  type State = map<SubjectRef, Subject>

  datatype Candidate = Candidate(number: nat, category: Category, evidence: set<Span>)

  datatype Row = Row(candidate: nat, selected: seq<SubjectRef>, ambiguous: bool, proofs: Proofs)

  datatype Resolution = Resolved(candidate: nat, subjects: seq<SubjectKey>, ambiguous: bool) | Deferred(candidate: nat)

  // The rules about identity proofs depend on the row, the candidate and the subjects it may choose.
  type Policy = (Row, Candidate, State) -> bool

  function Allowed(state: State, category: Category): State {
    map r | r in state && state[r].category == category :: state[r]
  }

  predicate RowOk(row: Row, c: Candidate, state: State, ordered: bool, policy: Policy) {
    && row.candidate == c.number
    && Distinct(row.selected) && (forall r | r in row.selected :: r in Allowed(state, c.category))
    && policy(row, c, Allowed(state, c.category))
    && (!ordered ==> !row.ambiguous)
  }

  // A clear decision that the candidate is a subject of its own.
  predicate CreatesNew(row: Row, ordered: bool) {
    ordered && !row.ambiguous && row.selected == []
  }

  function After(row: Row, c: Candidate, state: State, ordered: bool): State {
    if CreatesNew(row, ordered) then state[New(c.number) := Subject(c.category, Provisional(c.number), c.evidence)]
    else if ordered && !row.ambiguous && |row.selected| == 1 && row.selected[0] in state then
      state[row.selected[0] :=
        Subject(c.category, state[row.selected[0]].key, state[row.selected[0]].evidence + c.evidence)]
    else state
  }

  function Keys(selected: seq<SubjectRef>, state: State): seq<SubjectKey>
    requires forall r | r in selected :: r in state
  {
    seq(|selected|, k requires 0 <= k < |selected| => assert selected[k] in selected; state[selected[k]].key)
  }

  function Outcome(row: Row, c: Candidate, state: State, ordered: bool): Resolution
    requires forall r | r in row.selected :: r in state
  {
    Resolved(c.number, if row.ambiguous then [] else if CreatesNew(row, ordered) then [Provisional(c.number)]
      else Keys(row.selected, state),
             row.ambiguous)
  }

  // ----- the fold over one candidate at a time -----------------------------------------

  function Own(choice: Option<Row>, c: Candidate, state: State, ordered: bool): Resolution
    requires choice.Some? ==> forall r | r in choice.value.selected :: r in state
  {
    if choice.Some? then Outcome(choice.value, c, state, ordered) else Deferred(c.number)
  }

  // One choice for each candidate: a row, or none where the candidate was deferred.
  predicate FoldOk(choices: seq<Option<Row>>, segment: seq<Candidate>, state: State, ordered: bool, policy: Policy) {
    |choices| == |segment| &&
    (segment == [] ||
     ((choices[0].Some? ==> RowOk(choices[0].value, segment[0], state, ordered, policy))
      && FoldOk(choices[1..], segment[1..], Next(choices[0], segment[0], state, ordered), ordered, policy)))
  }

  function Next(choice: Option<Row>, c: Candidate, state: State, ordered: bool): State {
    if choice.Some? then After(choice.value, c, state, ordered) else state
  }

  function Fold(choices: seq<Option<Row>>, segment: seq<Candidate>, state: State, ordered: bool,
                policy: Policy): (r: (seq<Resolution>, State))
    requires FoldOk(choices, segment, state, ordered, policy)
    ensures |r.0| == |segment|
  {
    if segment == [] then ([], state)
    else
      var rest := Fold(choices[1..], segment[1..], Next(choices[0], segment[0], state, ordered), ordered, policy);
      ([Own(choices[0], segment[0], state, ordered)] + rest.0, rest.1)
  }

  lemma FoldOkUnfolds(choices: seq<Option<Row>>, segment: seq<Candidate>, state: State, ordered: bool, policy: Policy)
    requires segment != [] && |choices| == |segment|
    ensures FoldOk(choices, segment, state, ordered, policy) <==>
      (choices[0].Some? ==> RowOk(choices[0].value, segment[0], state, ordered, policy))
      && FoldOk(choices[1..], segment[1..], Next(choices[0], segment[0], state, ordered), ordered, policy)
    ensures choices[0].Some? && RowOk(choices[0].value, segment[0], state, ordered, policy) ==>
      forall r | r in choices[0].value.selected :: r in state
  {
  }

  lemma FoldUnfolds(choices: seq<Option<Row>>, segment: seq<Candidate>, state: State, ordered: bool, policy: Policy)
    requires segment != [] && FoldOk(choices, segment, state, ordered, policy)
    ensures |choices| == |segment|
      && FoldOk(choices[1..], segment[1..], Next(choices[0], segment[0], state, ordered), ordered, policy)
    ensures choices[0].Some? ==> forall r | r in choices[0].value.selected :: r in state
    ensures var rest := Fold(choices[1..], segment[1..], Next(choices[0], segment[0], state, ordered), ordered, policy);
      Fold(choices, segment, state, ordered, policy) == ([Own(choices[0], segment[0], state, ordered)] + rest.0, rest.1)
  {
  }

  lemma {:induction false} FoldOkSplits(a: seq<Option<Row>>, b: seq<Option<Row>>, s: seq<Candidate>, t: seq<Candidate>,
                                        state: State, ordered: bool, policy: Policy)
    requires |a| == |s| && FoldOk(a, s, state, ordered, policy) && |b| == |t|
    ensures FoldOk(a + b, s + t, state, ordered, policy) <==>
      FoldOk(b, t, Fold(a, s, state, ordered, policy).1, ordered, policy)
    decreases |s|
  {
    if s == [] {
      assert a == [] && a + b == b && s + t == t;
    } else {
      hide FoldOk, Fold, RowOk, Next;
      assert (a + b)[0] == a[0] && (a + b)[1..] == a[1..] + b;
      assert (s + t)[0] == s[0] && (s + t)[1..] == s[1..] + t;
      FoldOkUnfolds(a, s, state, ordered, policy);
      FoldOkUnfolds(a + b, s + t, state, ordered, policy);
      FoldUnfolds(a, s, state, ordered, policy);
      FoldOkSplits(a[1..], b, s[1..], t, Next(a[0], s[0], state, ordered), ordered, policy);
    }
  }

  lemma FoldOfNone(state: State, ordered: bool, policy: Policy)
    ensures FoldOk([], [], state, ordered, policy) && Fold([], [], state, ordered, policy) == ([], state)
  {
  }

  lemma FoldJoins(a: seq<Option<Row>>, b: seq<Option<Row>>, s: seq<Candidate>, t: seq<Candidate>, state: State,
                  ordered: bool, policy: Policy)
    requires s != [] && |a| == |s| && FoldOk(a + b, s + t, state, ordered, policy)
    ensures var next := Next(a[0], s[0], state, ordered);
      && FoldOk(a[1..] + b, s[1..] + t, next, ordered, policy)
      && var rest := Fold(a[1..] + b, s[1..] + t, next, ordered, policy);
         Fold(a + b, s + t, state, ordered, policy) == ([Own(a[0], s[0], state, ordered)] + rest.0, rest.1)
  {
    hide FoldOk, Fold, RowOk, Next, Own;
    assert (a + b)[0] == a[0] && (a + b)[1..] == a[1..] + b;
    assert (s + t)[0] == s[0] && (s + t)[1..] == s[1..] + t;
    FoldUnfolds(a + b, s + t, state, ordered, policy);
  }

  /** Replaying a concatenation is replaying the halves with the state threaded through. */
  lemma {:induction false} FoldSplits(a: seq<Option<Row>>, b: seq<Option<Row>>, s: seq<Candidate>, t: seq<Candidate>,
                                      state: State, ordered: bool, policy: Policy)
    requires |a| == |s| && FoldOk(a, s, state, ordered, policy) && |b| == |t|
    ensures FoldOk(a + b, s + t, state, ordered, policy) <==>
      FoldOk(b, t, Fold(a, s, state, ordered, policy).1, ordered, policy)
    ensures FoldOk(a + b, s + t, state, ordered, policy) ==>
      var left := Fold(a, s, state, ordered, policy);
      var right := Fold(b, t, left.1, ordered, policy);
      Fold(a + b, s + t, state, ordered, policy) == (left.0 + right.0, right.1)
    decreases |s|
  {
    hide FoldOk, Fold, RowOk, Next, Own;
    FoldOkSplits(a, b, s, t, state, ordered, policy);
    if FoldOk(a + b, s + t, state, ordered, policy) {
      if s == [] {
        FoldOfNone(state, ordered, policy);
        assert a == [] && a + b == b && s + t == t;
        assert [] + Fold(b, t, state, ordered, policy).0 == Fold(b, t, state, ordered, policy).0;
      } else {
        var next := Next(a[0], s[0], state, ordered);
        FoldUnfolds(a, s, state, ordered, policy);
        FoldJoins(a, b, s, t, state, ordered, policy);
        FoldSplits(a[1..], b, s[1..], t, next, ordered, policy);
        var own, rest := Own(a[0], s[0], state, ordered), Fold(a[1..], s[1..], next, ordered, policy);
        var right := Fold(b, t, rest.1, ordered, policy);
        assert [own] + (rest.0 + right.0) == ([own] + rest.0) + right.0;
      }
    }
  }

  function Rows(rows: seq<Row>): (choices: seq<Option<Row>>)
    ensures |choices| == |rows|
  {
    seq(|rows|, k requires 0 <= k < |rows| => Some(rows[k]))
  }

  function NoRows(n: nat): (choices: seq<Option<Row>>)
    ensures |choices| == n
  {
    seq(n, k => None)
  }

  function DeferredAll(segment: seq<Candidate>): (outcomes: seq<Resolution>)
    ensures |outcomes| == |segment|
  {
    seq(|segment|, k requires 0 <= k < |segment| => Deferred(segment[k].number))
  }

  // A deferred segment leaves the state as it was.
  lemma {:induction false} DeferralIsFold(segment: seq<Candidate>, state: State, ordered: bool, policy: Policy)
    ensures FoldOk(NoRows(|segment|), segment, state, ordered, policy)
    ensures Fold(NoRows(|segment|), segment, state, ordered, policy) == (DeferredAll(segment), state)
  {
    if segment != [] {
      assert NoRows(|segment|)[1..] == NoRows(|segment| - 1);
      DeferralIsFold(segment[1..], state, ordered, policy);
      assert DeferredAll(segment) == [Deferred(segment[0].number)] + DeferredAll(segment[1..]);
    }
  }

  // ----- the replay loop ----------------------------------------------------------------------

  lemma FoldOfOne(choice: Option<Row>, c: Candidate, state: State, ordered: bool, policy: Policy)
    ensures FoldOk([choice], [c], state, ordered, policy) <==>
      (choice.Some? ==> RowOk(choice.value, c, state, ordered, policy))
    ensures choice.Some? && RowOk(choice.value, c, state, ordered, policy) ==>
      Fold([choice], [c], state, ordered, policy) ==
        ([Outcome(choice.value, c, state, ordered)], After(choice.value, c, state, ordered))
  {
    hide RowOk, After, Outcome;
    assert [choice][1..] == [] && [c][1..] == [];
    var next := Next(choice, c, state, ordered);
    assert FoldOk([], [], next, ordered, policy) && Fold([], [], next, ordered, policy) == ([], next);
    assert forall own: Resolution :: [own] + [] == [own];
  }

  // One more candidate after the ones folded so far.
  function Further(so: (seq<Resolution>, State), row: Row, c: Candidate, ordered: bool): (seq<Resolution>, State)
    requires forall r | r in row.selected :: r in so.1
  {
    (so.0 + [Outcome(row, c, so.1, ordered)], After(row, c, so.1, ordered))
  }

  lemma FoldPrefix(choices: seq<Option<Row>>, segment: seq<Candidate>, i: nat, state: State, ordered: bool,
                   policy: Policy)
    requires |choices| == |segment| && i < |segment| && FoldOk(choices[..i], segment[..i], state, ordered, policy)
    requires choices[i].Some?
    ensures var so := Fold(choices[..i], segment[..i], state, ordered, policy);
      var ok := RowOk(choices[i].value, segment[i], so.1, ordered, policy);
      && (ok ==> FoldOk(choices[..i + 1], segment[..i + 1], state, ordered, policy))
      && (!ok ==> !FoldOk(choices, segment, state, ordered, policy))
      && (ok ==>
        Fold(choices[..i + 1], segment[..i + 1], state, ordered, policy) ==
        Further(so, choices[i].value, segment[i], ordered))
  {
    hide RowOk, After, Outcome;
    var so := Fold(choices[..i], segment[..i], state, ordered, policy);
    assert choices[..i + 1] == choices[..i] + [choices[i]] && segment[..i + 1] == segment[..i] + [segment[i]];
    FoldSplits(choices[..i], [choices[i]], segment[..i], [segment[i]], state, ordered, policy);
    FoldOfOne(choices[i], segment[i], so.1, ordered, policy);
    assert choices == choices[..i] + choices[i..] && segment == segment[..i] + segment[i..];
    FoldSplits(choices[..i], choices[i..], segment[..i], segment[i..], state, ordered, policy);
  }

  // One row, checked against the subjects known so far; a clear new subject joins them, and a
  // clear choice of one adds the candidate's evidence to it.
  method ReplayRow(row: Row, c: Candidate, active: State, ordered: bool, policy: Policy)
    returns (step: Option<(Resolution, State)>)
    ensures step.Some? <==> RowOk(row, c, active, ordered, policy)
    ensures step.Some? ==>
      && (forall r | r in row.selected :: r in active)
      && step.value == (Outcome(row, c, active, ordered), After(row, c, active, ordered))
  {
    var allowed := map r | r in active.Keys && active[r].category == c.category :: active[r];
    assert allowed == Allowed(active, c.category);
    if row.candidate != c.number {
      return None;
    }
    if exists i, j | 0 <= i < j < |row.selected| :: row.selected[i] == row.selected[j] {
      return None;
    }
    if exists r | r in row.selected :: r !in allowed {
      return None;
    }
    if !policy(row, c, allowed) || (!ordered && row.ambiguous) {
      return None;
    }
    forall k | 0 <= k < |row.selected| ensures row.selected[k] in allowed { assert row.selected[k] in row.selected; }
    var keys: seq<SubjectKey> := [];
    var next := active;
    if !row.ambiguous {
      keys := seq(|row.selected|, k requires 0 <= k < |row.selected| => allowed[row.selected[k]].key);
      assert keys == Keys(row.selected, active);
      if ordered && keys == [] {
        next := active[New(c.number) := Subject(c.category, Provisional(c.number), c.evidence)];
        keys := [Provisional(c.number)];
      } else if ordered && |keys| == 1 {
        var subject := allowed[row.selected[0]];
        next := active[row.selected[0] := Subject(c.category, subject.key, subject.evidence + c.evidence)];
      }
    }
    step := Some((Resolved(c.number, keys, row.ambiguous), next));
  }

  /** The replay loop accepts exactly the replies that fold, and computes the fold. */
  method Replay(rows: seq<Row>, segment: seq<Candidate>, state: State, ordered: bool, policy: Policy)
    returns (replayed: Option<(seq<Resolution>, State)>)
    ensures replayed.Some? <==> FoldOk(Rows(rows), segment, state, ordered, policy)
    ensures replayed.Some? ==> replayed.value == Fold(Rows(rows), segment, state, ordered, policy)
  {
    hide Fold, FoldOk, RowOk, After, Outcome;
    if |rows| != |segment| {
      CoverageNeeded(rows, segment, state, ordered, policy);
      return None;
    }
    var active: State := state;
    var outcomes: seq<Resolution> := [];
    NothingFolded(rows, segment, state, ordered, policy);
    for i := 0 to |segment|
      invariant FoldOk(Rows(rows)[..i], segment[..i], state, ordered, policy)
      invariant (outcomes, active) == Fold(Rows(rows)[..i], segment[..i], state, ordered, policy)
    {
      FoldPrefix(Rows(rows), segment, i, state, ordered, policy);
      var step := ReplayRow(rows[i], segment[i], active, ordered, policy);
      if step.None? {
        return None;
      }
      outcomes, active := outcomes + [step.value.0], step.value.1;
    }
    assert Rows(rows)[..|segment|] == Rows(rows) && segment[..|segment|] == segment;
    replayed := Some((outcomes, active));
  }

  lemma CoverageNeeded(rows: seq<Row>, segment: seq<Candidate>, state: State, ordered: bool, policy: Policy)
    requires |rows| != |segment|
    ensures !FoldOk(Rows(rows), segment, state, ordered, policy)
  {
  }

  lemma NothingFolded(rows: seq<Row>, segment: seq<Candidate>, state: State, ordered: bool, policy: Policy)
    requires |rows| == |segment|
    ensures FoldOk(Rows(rows)[..0], segment[..0], state, ordered, policy)
    ensures Fold(Rows(rows)[..0], segment[..0], state, ordered, policy) == ([], state)
  {
  }

  // ----- recursive halving ----------------------------------------------------------------------

  // How one validated request ends: with a reply, with a failure of its candidates, or with
  // an error that no candidate is to blame for.
  datatype Attempt = Answered(rows: seq<Row>) | Failed(splittable: bool) | NotOurs

  // Two requests of one batch never ask about the same candidates, so a function of the
  // candidates and the state covers every provider.
  type Provider = (seq<Candidate>, State) -> Attempt

  datatype Segment = Raised | Done(outcomes: seq<Resolution>, state: State)

  predicate Accepts(attempt: Attempt, segment: seq<Candidate>, state: State, ordered: bool, policy: Policy) {
    attempt.Answered? && FoldOk(Rows(attempt.rows), segment, state, ordered, policy)
  }

  // A reply that does not replay is a failure that halving may isolate.
  predicate Splittable(attempt: Attempt) {
    attempt.Answered? || (attempt.Failed? && attempt.splittable)
  }

  // Which row each candidate ends up with; nothing if the failure is not the candidates' own.
  function Decide(segment: seq<Candidate>, state: State, ordered: bool, continueOnFailure: bool, policy: Policy,
                  provider: Provider)
    : (choices: Option<seq<Option<Row>>>)
    ensures choices.Some? ==> |choices.value| == |segment| && FoldOk(choices.value, segment, state, ordered, policy)
    decreases |segment|
  {
    if segment == [] then Some([])
    else
      var attempt := provider(segment, state);
      if Accepts(attempt, segment, state, ordered, policy) then
        assert |Rows(attempt.rows)| == |segment|;
        Some(Rows(attempt.rows))
      else if attempt.NotOurs? then None
      else if |segment| > 1 && Splittable(attempt) then
        Halves(segment, state, ordered, continueOnFailure, policy, provider)
      else if continueOnFailure then
        DeferralIsFold(segment, state, ordered, policy);
        Some(NoRows(|segment|))
      else None
  }

  function Halves(segment: seq<Candidate>, state: State, ordered: bool, continueOnFailure: bool, policy: Policy,
                  provider: Provider)
    : (choices: Option<seq<Option<Row>>>)
    requires |segment| > 1
    ensures choices.Some? ==> |choices.value| == |segment| && FoldOk(choices.value, segment, state, ordered, policy)
    decreases |segment|, 0
  {
    var (first, second) := (segment[..|segment| / 2], segment[|segment| / 2..]);
    var ours := Decide(first, state, ordered, continueOnFailure, policy, provider);
    if ours.None? then None
    else
      var theirs := Decide(second, Fold(ours.value, first, state, ordered, policy).1, ordered, continueOnFailure,
        policy, provider);
      if theirs.None? then None
      else
        assert first + second == segment;
        FoldSplits(ours.value, theirs.value, first, second, state, ordered, policy);
        Some(ours.value + theirs.value)
  }

  /** One segment, halved as often as its requests fail.  Whatever the provider does, the
      result is one fold over the segment in order: one outcome for each candidate, and a
      deferred candidate leaves the state as it was.  At most 2n - 1 requests are made. */
  method ResolveSegment(segment: seq<Candidate>, state: State, ordered: bool, continueOnFailure: bool, policy: Policy,
                        provider: Provider)
    returns (done: Segment, requests: nat)
    ensures var choices := Decide(segment, state, ordered, continueOnFailure, policy, provider);
      && (done.Raised? <==> choices.None?)
      && (done.Done? ==> (done.outcomes, done.state) == Fold(choices.value, segment, state, ordered, policy))
    ensures requests <= if segment == [] then 0 else 2 * |segment| - 1
    decreases |segment|
  {
    hide Fold, FoldOk;
    requests := 0;
    if segment == [] {
      NothingFolded([], segment, state, ordered, policy);
      assert Rows([])[..0] == [] && segment[..0] == [];
      return Done([], state), 0;
    }
    var attempt := provider(segment, state);
    requests := 1;
    if attempt.Answered? {
      var replayed := Replay(attempt.rows, segment, state, ordered, policy);
      if replayed.Some? {
        return Done(replayed.value.0, replayed.value.1), 1;
      }
    }
    if attempt.NotOurs? {
      return Raised, 1;
    }
    if |segment| == 1 || (attempt.Failed? && !attempt.splittable) {
      if !continueOnFailure {
        return Raised, 1;
      }
      DeferralIsFold(segment, state, ordered, policy);
      return Done(DeferredAll(segment), state), 1;
    }
    var midpoint := |segment| / 2;
    ghost var ours := Decide(segment[..midpoint], state, ordered, continueOnFailure, policy, provider);
    var left, right, more;
    left, more := ResolveSegment(segment[..midpoint], state, ordered, continueOnFailure, policy, provider);
    requests := requests + more;
    if left.Raised? {
      return Raised, requests;
    }
    right, more := ResolveSegment(segment[midpoint..], left.state, ordered, continueOnFailure, policy, provider);
    requests := requests + more;
    if right.Raised? {
      return Raised, requests;
    }
    ghost var theirs := Decide(segment[midpoint..], left.state, ordered, continueOnFailure, policy, provider);
    assert segment == segment[..midpoint] + segment[midpoint..];
    FoldSplits(ours.value, theirs.value, segment[..midpoint], segment[midpoint..], state, ordered, policy);
    done := Done(left.outcomes + right.outcomes, right.state);
  }

  // The state in front of candidate k.
  function StateBefore(choices: seq<Option<Row>>, segment: seq<Candidate>, k: nat, state: State, ordered: bool): State
    requires k <= |segment| == |choices|
  {
    if k == 0 then state
      else Next(choices[k - 1], segment[k - 1], StateBefore(choices, segment, k - 1, state, ordered), ordered)
  }

  lemma {:induction false} StateBeforeSplits(a: seq<Option<Row>>, b: seq<Option<Row>>, s: seq<Candidate>,
                                             t: seq<Candidate>, k: nat, state: State, ordered: bool)
    requires |a| == |s| && |b| == |t| && k <= |s| + |t|
    ensures StateBefore(a + b, s + t, k, state, ordered)
      == if k <= |s| then StateBefore(a, s, k, state, ordered)
        else StateBefore(b, t, k - |s|, StateBefore(a, s, |s|, state, ordered), ordered)
  {
    hide Next;
    if k > 0 {
      StateBeforeSplits(a, b, s, t, k - 1, state, ordered);
    }
  }

  lemma {:induction false} FoldEnds(choices: seq<Option<Row>>, segment: seq<Candidate>, state: State, ordered: bool,
                                    policy: Policy)
    requires FoldOk(choices, segment, state, ordered, policy)
    ensures |choices| == |segment| && Fold(choices, segment, state, ordered, policy).1 ==
      StateBefore(choices, segment, |segment|, state, ordered)
  {
    hide RowOk, Next;
    if segment != [] {
      var next := Next(choices[0], segment[0], state, ordered);
      FoldEnds(choices[1..], segment[1..], next, ordered, policy);
      assert [choices[0]] + choices[1..] == choices && [segment[0]] + segment[1..] == segment;
      StateBeforeSplits([choices[0]], choices[1..], [segment[0]], segment[1..], |segment|, state, ordered);
      assert StateBefore([choices[0]], [segment[0]], 0, state, ordered) == state;
      assert StateBefore([choices[0]], [segment[0]], 1, state, ordered) == next;
    }
  }

  // The request for candidates lo..hi failed beyond halving.
  ghost predicate GivenUp(attempt: Attempt, segment: seq<Candidate>, state: State, ordered: bool, policy: Policy) {
    !Accepts(attempt, segment, state, ordered, policy) && (|segment| == 1 || !Splittable(attempt))
  }

  // A request that fails and can be halved is decided by its halves.
  lemma DecideHalves(segment: seq<Candidate>, state: State, ordered: bool, goOn: bool, policy: Policy,
                     provider: Provider)
    requires Decide(segment, state, ordered, goOn, policy, provider).Some? && |segment| > 1
    requires !Accepts(provider(segment, state), segment, state, ordered, policy) && Splittable(provider(segment, state))
    ensures var (first, second) := (segment[..|segment| / 2], segment[|segment| / 2..]);
      var ours := Decide(first, state, ordered, goOn, policy, provider);
      && first + second == segment
      && ours.Some? && FoldOk(ours.value, first, state, ordered, policy) && |ours.value| == |first|
      && var next := StateBefore(ours.value, first, |first|, state, ordered);
         var theirs := Decide(second, next, ordered, goOn, policy, provider);
         && theirs.Some? && |theirs.value| == |second|
         && Decide(segment, state, ordered, goOn, policy, provider).value == ours.value + theirs.value
  {
    hide Fold, FoldOk, StateBefore, Accepts;
    var first := segment[..|segment| / 2];
    FoldEnds(Decide(first, state, ordered, goOn, policy, provider).value, first, state, ordered, policy);
  }

  /** A candidate is deferred only by a request that covered it, was not acceptable in the
      state it was made in, and could not be halved: its own, or one that failed for a
      reason that halving does not help. */
  lemma {:induction false} DeferredWasGivenUp(segment: seq<Candidate>, state: State, ordered: bool, policy: Policy,
                                              provider: Provider, k: nat)
    returns (lo: nat, hi: nat)
    requires Decide(segment, state, ordered, true, policy, provider).Some? && k < |segment|
    requires Decide(segment, state, ordered, true, policy, provider).value[k].None?
    ensures var choices := Decide(segment, state, ordered, true, policy, provider).value;
      && lo <= k < hi <= |segment|
      && var before := StateBefore(choices, segment, lo, state, ordered);
         GivenUp(provider(segment[lo..hi], before), segment[lo..hi], before, ordered, policy)
    decreases |segment|
  {
    hide Fold, FoldOk, StateBefore, Decide, GivenUp, Accepts, Splittable;
    var attempt := provider(segment, state);
    if Accepts(attempt, segment, state, ordered, policy) || |segment| == 1 || !Splittable(attempt) {
      WholeGivenUp(segment, state, ordered, policy, provider, k);
      lo, hi := 0, |segment|;
    } else {
      DecideHalves(segment, state, ordered, true, policy, provider);
      var m := |segment| / 2;
      var first, second := segment[..m], segment[m..];
      var ours := Decide(first, state, ordered, true, policy, provider).value;
      var next := StateBefore(ours, first, m, state, ordered);
      var theirs := Decide(second, next, ordered, true, policy, provider).value;
      assert first == segment[0..m] && second == segment[m..|segment|];
      if k < m {
        lo, hi := DeferredWasGivenUp(first, state, ordered, policy, provider, k);
        SliceOfSlice(segment, 0, m, lo, hi);
        StateBeforeSplits(ours, theirs, first, second, lo, state, ordered);
      } else {
        lo, hi := DeferredWasGivenUp(second, next, ordered, policy, provider, k - m);
        SliceOfSlice(segment, m, |segment|, lo, hi);
        StateBeforeSplits(ours, theirs, first, second, m + lo, state, ordered);
        NothingBefore(theirs, second, next, ordered);
        lo, hi := m + lo, m + hi;
      }
    }
  }

  lemma WholeGivenUp(segment: seq<Candidate>, state: State, ordered: bool, policy: Policy, provider: Provider, k: nat)
    requires Decide(segment, state, ordered, true, policy, provider).Some? && k < |segment|
    requires Decide(segment, state, ordered, true, policy, provider).value[k].None?
    requires Accepts(provider(segment, state), segment, state, ordered, policy) || |segment| == 1
      || !Splittable(provider(segment, state))
    ensures var choices := Decide(segment, state, ordered, true, policy, provider).value;
      && StateBefore(choices, segment, 0, state, ordered) == state && segment[0..|segment|] == segment
      && GivenUp(provider(segment, state), segment, state, ordered, policy)
  {
    hide Fold, FoldOk, StateBefore;
    assert segment[0..|segment|] == segment;
    assert forall rows: seq<Row> :: k < |rows| ==> Rows(rows)[k] == Some(rows[k]);
    NothingBefore(Decide(segment, state, ordered, true, policy, provider).value, segment, state, ordered);
  }

  lemma NothingBefore(choices: seq<Option<Row>>, segment: seq<Candidate>, state: State, ordered: bool)
    requires |choices| == |segment|
    ensures StateBefore(choices, segment, 0, state, ordered) == state
  {
  }

  /** A row that is chosen for a candidate is the one that a reply offered for it: the reply
      to a request that covered the candidate, acceptable in the state it was made in. */
  lemma {:induction false} ChosenWasOffered(segment: seq<Candidate>, state: State, ordered: bool, goOn: bool,
                                            policy: Policy, provider: Provider, k: nat)
    returns (lo: nat, hi: nat)
    requires Decide(segment, state, ordered, goOn, policy, provider).Some? && k < |segment|
    requires Decide(segment, state, ordered, goOn, policy, provider).value[k].Some?
    ensures var choices := Decide(segment, state, ordered, goOn, policy, provider).value;
      && lo <= k < hi <= |segment|
      && var before := StateBefore(choices, segment, lo, state, ordered);
         OfferedBy(provider(segment[lo..hi], before), segment[lo..hi], before, ordered, policy, k - lo,
                   choices[k].value)
    decreases |segment|
  {
    hide Fold, FoldOk, StateBefore, Decide, Accepts, Splittable, OfferedBy;
    if Accepts(provider(segment, state), segment, state, ordered, policy) {
      WholeOffered(segment, state, ordered, goOn, policy, provider, k);
      lo, hi := 0, |segment|;
    } else {
      NobodyDeferred(segment, state, ordered, goOn, policy, provider, k);
      DecideHalves(segment, state, ordered, goOn, policy, provider);
      var m := |segment| / 2;
      var first, second := segment[..m], segment[m..];
      var ours := Decide(first, state, ordered, goOn, policy, provider).value;
      var next := StateBefore(ours, first, m, state, ordered);
      var theirs := Decide(second, next, ordered, goOn, policy, provider).value;
      assert first == segment[0..m] && second == segment[m..|segment|];
      if k < m {
        lo, hi := ChosenWasOffered(first, state, ordered, goOn, policy, provider, k);
        SliceOfSlice(segment, 0, m, lo, hi);
        StateBeforeSplits(ours, theirs, first, second, lo, state, ordered);
      } else {
        lo, hi := ChosenWasOffered(second, next, ordered, goOn, policy, provider, k - m);
        SliceOfSlice(segment, m, |segment|, lo, hi);
        StateBeforeSplits(ours, theirs, first, second, m + lo, state, ordered);
        NothingBefore(theirs, second, next, ordered);
        lo, hi := m + lo, m + hi;
      }
    }
  }

  // The reply is acceptable, and its row at place i is this one.
  ghost predicate OfferedBy(attempt: Attempt, segment: seq<Candidate>, state: State, ordered: bool, policy: Policy,
                            i: int, row: Row)
  {
    Accepts(attempt, segment, state, ordered, policy) && 0 <= i < |attempt.rows| && attempt.rows[i] == row
  }

  lemma WholeOffered(segment: seq<Candidate>, state: State, ordered: bool, goOn: bool, policy: Policy,
                     provider: Provider, k: nat)
    requires k < |segment| && Accepts(provider(segment, state), segment, state, ordered, policy)
    ensures Decide(segment, state, ordered, goOn, policy, provider) == Some(Rows(provider(segment, state).rows))
    ensures var choices := Decide(segment, state, ordered, goOn, policy, provider).value;
      && choices[k].Some? && StateBefore(choices, segment, 0, state, ordered) == state
      && segment[0..|segment|] == segment
      && OfferedBy(provider(segment, state), segment, state, ordered, policy, k, choices[k].value)
  {
    hide Fold, FoldOk, StateBefore;
    assert segment[0..|segment|] == segment;
    NothingBefore(Decide(segment, state, ordered, goOn, policy, provider).value, segment, state, ordered);
  }

  // A failed request that chooses something was halved.
  lemma NobodyDeferred(segment: seq<Candidate>, state: State, ordered: bool, goOn: bool, policy: Policy,
                       provider: Provider, k: nat)
    requires Decide(segment, state, ordered, goOn, policy, provider).Some? && k < |segment|
    requires Decide(segment, state, ordered, goOn, policy, provider).value[k].Some?
    requires !Accepts(provider(segment, state), segment, state, ordered, policy)
    ensures |segment| > 1 && Splittable(provider(segment, state))
  {
    hide Fold, FoldOk, Accepts;
  }

  /** Without leave to continue, an answer is complete: no candidate is deferred. */
  lemma {:induction false} NothingDeferred(segment: seq<Candidate>, state: State, ordered: bool, policy: Policy,
                                           provider: Provider)
    requires Decide(segment, state, ordered, false, policy, provider).Some?
    ensures forall choice | choice in Decide(segment, state, ordered, false, policy, provider).value :: choice.Some?
    decreases |segment|
  {
    hide Fold, FoldOk;
    if segment != [] && !Accepts(provider(segment, state), segment, state, ordered, policy) {
      var m := |segment| / 2;
      var ours := Decide(segment[..m], state, ordered, false, policy, provider);
      NothingDeferred(segment[..m], state, ordered, policy, provider);
      NothingDeferred(segment[m..], Fold(ours.value, segment[..m], state, ordered, policy).1, ordered, policy,
        provider);
    }
  }

  // ----- where new subjects come from -------------------------------------------------------------

  predicate Creates(choice: Option<Row>, c: Candidate, ordered: bool) {
    choice.Some? && CreatesNew(choice.value, ordered)
  }

  ghost predicate CreatedAt(r: SubjectRef, category: Category, choice: Option<Row>, c: Candidate, ordered: bool) {
    r == New(c.number) && Creates(choice, c, ordered) && c.category == category
  }

  // A new subject in the state was there before, or an earlier candidate clearly created it.
  ghost predicate Originates(r: SubjectRef, subject: Subject, choices: seq<Option<Row>>, segment: seq<Candidate>,
                             n: nat, ordered: bool, start: State)
    requires n <= |segment| == |choices|
  {
    || (r in start && start[r].category == subject.category)
    || (exists j :: 0 <= j < n && CreatedAt(r, subject.category, choices[j], segment[j], ordered))
  }

  ghost predicate AllOriginate(state: State, choices: seq<Option<Row>>, segment: seq<Candidate>, n: nat, ordered: bool,
                               start: State)
    requires n <= |segment| == |choices|
  {
    forall r | r in state :: Originates(r, state[r], choices, segment, n, ordered, start)
  }

  lemma {:induction false} StateShifts(choices: seq<Option<Row>>, segment: seq<Candidate>, k: nat, state: State,
                                       ordered: bool)
    requires 0 < k <= |segment| == |choices|
    ensures StateBefore(choices, segment, k, state, ordered)
      == StateBefore(choices[1..], segment[1..], k - 1, Next(choices[0], segment[0], state, ordered), ordered)
  {
    hide After;
    if k > 1 {
      StateShifts(choices, segment, k - 1, state, ordered);
      assert choices[1..][k - 2] == choices[k - 1] && segment[1..][k - 2] == segment[k - 1];
    } else {
      assert StateBefore(choices, segment, 0, state, ordered) == state;
    }
  }

  /** In a fold every row is checked and applied against the state left by the ones before. */
  lemma {:induction false} FoldChecksEach(choices: seq<Option<Row>>, segment: seq<Candidate>, k: nat, state: State,
                                          ordered: bool, policy: Policy)
    requires FoldOk(choices, segment, state, ordered, policy) && k < |segment| && choices[k].Some?
    ensures var before := StateBefore(choices, segment, k, state, ordered);
      && RowOk(choices[k].value, segment[k], before, ordered, policy)
      && Fold(choices, segment, state, ordered, policy).0[k] == Outcome(choices[k].value, segment[k], before, ordered)
    decreases k
  {
    hide After, RowOk, Outcome;
    if k > 0 {
      FoldChecksEach(choices[1..], segment[1..], k - 1, Next(choices[0], segment[0], state, ordered), ordered, policy);
      StateShifts(choices, segment, k, state, ordered);
    }
  }

  lemma {:induction false} SubjectsOriginate(choices: seq<Option<Row>>, segment: seq<Candidate>, k: nat, start: State,
                                             ordered: bool, policy: Policy)
    requires FoldOk(choices, segment, start, ordered, policy) && k <= |segment|
    ensures |choices| == |segment|
    ensures AllOriginate(StateBefore(choices, segment, k, start, ordered), choices, segment, k, ordered, start)
  {
    if k > 0 {
      SubjectsOriginate(choices, segment, k - 1, start, ordered, policy);
      var before, state := StateBefore(choices, segment, k - 1, start, ordered),
        StateBefore(choices, segment, k, start, ordered);
      if choices[k - 1].Some? {
        FoldChecksEach(choices, segment, k - 1, start, ordered, policy);
      }
      forall r | r in state ensures Originates(r, state[r], choices, segment, k, ordered, start) {
        OriginStep(r, choices, segment, k, start, ordered, policy);
      }
    }
  }

  lemma OriginStep(r: SubjectRef, choices: seq<Option<Row>>, segment: seq<Candidate>, k: nat, start: State,
                   ordered: bool, policy: Policy)
    requires 0 < k <= |segment| == |choices|
    requires choices[k - 1].Some? ==>
      RowOk(choices[k - 1].value, segment[k - 1], StateBefore(choices, segment, k - 1, start, ordered), ordered, policy)
    requires AllOriginate(StateBefore(choices, segment, k - 1, start, ordered), choices, segment, k - 1, ordered, start)
    requires r in StateBefore(choices, segment, k, start, ordered)
    ensures Originates(r, StateBefore(choices, segment, k, start, ordered)[r], choices, segment, k, ordered, start)
  {
    var before, state := StateBefore(choices, segment, k - 1, start, ordered),
      StateBefore(choices, segment, k, start, ordered);
    if Creates(choices[k - 1], segment[k - 1], ordered) && r == New(segment[k - 1].number) {
      assert CreatedAt(r, state[r].category, choices[k - 1], segment[k - 1], ordered);
    } else {
      if choices[k - 1].Some? {
        CategoryStays(choices[k - 1].value, segment[k - 1], before, ordered, policy, r);
      }
      assert Originates(r, before[r], choices, segment, k - 1, ordered, start);
    }
  }

  lemma CategoryStays(row: Row, c: Candidate, state: State, ordered: bool, policy: Policy, r: SubjectRef)
    requires RowOk(row, c, state, ordered, policy) && r in After(row, c, state, ordered)
    requires !(CreatesNew(row, ordered) && r == New(c.number))
    ensures r in state && After(row, c, state, ordered)[r].category == state[r].category
  {
    if |row.selected| == 1 {
      assert row.selected[0] in row.selected;
    }
  }

  /** Selected new subjects were created earlier: if the request starts with stored
      subjects only, every new reference that a row selects was created by a clear-new
      decision of an earlier candidate of the same category. */
  lemma SelectedWereCreated(choices: seq<Option<Row>>, segment: seq<Candidate>, k: nat, n: nat, start: State,
                            ordered: bool, policy: Policy)
    requires FoldOk(choices, segment, start, ordered, policy) && forall r | r in start :: r.Known?
    requires k < |segment| && choices[k].Some? && New(n) in choices[k].value.selected
    ensures exists j :: 0 <= j < k && CreatedAt(New(n), segment[k].category, choices[j], segment[j], ordered)
  {
    FoldChecksEach(choices, segment, k, start, ordered, policy);
    SubjectsOriginate(choices, segment, k, start, ordered, policy);
    var before := StateBefore(choices, segment, k, start, ordered);
    assert New(n) in Allowed(before, segment[k].category);
    assert Originates(New(n), before[New(n)], choices, segment, k, ordered, start);
  }

  /** One outcome for each candidate, in order. */
  lemma {:induction false} OutcomesInOrder(choices: seq<Option<Row>>, segment: seq<Candidate>, k: nat, state: State,
                                           ordered: bool, policy: Policy)
    requires FoldOk(choices, segment, state, ordered, policy) && k < |segment|
    ensures var outcome := Fold(choices, segment, state, ordered, policy).0[k];
      outcome.candidate == segment[k].number && (outcome.Deferred? <==> choices[k].None?)
    decreases k
  {
    if k > 0 {
      OutcomesInOrder(choices[1..], segment[1..], k - 1, Next(choices[0], segment[0], state, ordered), ordered, policy);
    }
  }

  /** Outside ordered mode the state never changes, so no candidate can use another's result. */
  lemma {:induction false} UnorderedIsIndependent(choices: seq<Option<Row>>, segment: seq<Candidate>, state: State,
                                                  policy: Policy)
    requires FoldOk(choices, segment, state, false, policy)
    ensures Fold(choices, segment, state, false, policy).1 == state
  {
    if segment != [] {
      UnorderedIsIndependent(choices[1..], segment[1..], state, policy);
    }
  }
}
