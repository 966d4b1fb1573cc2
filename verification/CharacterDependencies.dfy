/**
 Dependency soundness of the character projection.

 A run applies decisions in order.  Each applied decision records the candidates
 it depends on, through the entries it reads and through the absences it fills.
 The records are transitively closed, and any part of a run that is closed under
 them can be replayed alone, from the same initial snapshot, with the same result.
 */
module CharacterDependencies {
  import opened CharacterProjection

  datatype Move = Move(candidate: Candidate, decision: Decision)

  function Outcomes(p: Policy, s: Snapshot, moves: seq<Move>): (os: seq<Outcome>)
    ensures |os| == |moves|
    decreases |moves|
  {
    if moves == [] then []
    else
      var (s', o) := Step(p, s, moves[0].candidate, moves[0].decision);
      [o] + Outcomes(p, s', moves[1..])
  }

  function Final(p: Policy, s: Snapshot, moves: seq<Move>): Snapshot
    decreases |moves|
  {
    if moves == [] then s
    else Final(p, Step(p, s, moves[0].candidate, moves[0].decision).0, moves[1..])
  }

  // Every decision of the run is accepted and applied.
  predicate AllApplied(p: Policy, s: Snapshot, moves: seq<Move>)
    decreases |moves|
  {
    moves == [] ||
    var (s', o) := Step(p, s, moves[0].candidate, moves[0].decision);
    o.Applied? && AllApplied(p, s', moves[1..])
  }

  function Index(m: Move): CandidateRef {
    m.candidate.index
  }

  function Indices(moves: seq<Move>): set<CandidateRef> {
    set m | m in moves :: Index(m)
  }

  ghost predicate DistinctIndices(moves: seq<Move>) {
    forall i, j :: 0 <= i < j < |moves| ==> Index(moves[i]) != Index(moves[j])
  }

  // No candidate of the run owns an active projected reference yet.
  ghost predicate Fresh(s: Snapshot, moves: seq<Move>) {
    forall m | m in moves :: Projected(Index(m)) !in s.entries
  }

  function Kept(moves: seq<Move>, keep: set<CandidateRef>): seq<Move>
  {
    if moves == [] then []
    else (if Index(moves[0]) in keep then [moves[0]] else []) + Kept(moves[1..], keep)
  }

  function KeptOutcomes(moves: seq<Move>, os: seq<Outcome>, keep: set<CandidateRef>): seq<Outcome>
    requires |os| == |moves|
  {
    if moves == [] then []
    else (if Index(moves[0]) in keep then [os[0]] else []) + KeptOutcomes(moves[1..], os[1..], keep)
  }

  function Recorded(os: seq<Outcome>, i: int): set<CandidateRef> {
    if 0 <= i < |os| && os[i].Applied? then os[i].dependencies else {}
  }

  // Whatever a kept decision depends on inside the run is kept as well.
  ghost predicate Closed(moves: seq<Move>, os: seq<Outcome>, run: set<CandidateRef>, keep: set<CandidateRef>) {
    forall i | 0 <= i < |moves| && Index(moves[i]) in keep :: Recorded(os, i) * run <= keep
  }

  lemma ClosedTail(moves: seq<Move>, os: seq<Outcome>, run: set<CandidateRef>, keep: set<CandidateRef>)
    requires |os| == |moves| > 0 && Closed(moves, os, run, keep)
    ensures Closed(moves[1..], os[1..], run, keep)
    ensures Index(moves[0]) in keep ==> Recorded(os, 0) * run <= keep
  {
    forall i | 0 <= i < |moves| - 1 && Index(moves[1..][i]) in keep ensures Recorded(os[1..], i) * run <= keep {
      assert Recorded(os[1..], i) == Recorded(os, i + 1) && moves[1..][i] == moves[i + 1];
    }
  }

  // ----- the simulation ------------------------------------------------------

  ghost predicate Trusted(cell: Cell, run: set<CandidateRef>, keep: set<CandidateRef>) {
    CellSupport(cell) * run <= keep
  }

  // The part of f that rests on kept decisions only is the same in g.
  ghost predicate Agree(f: Snapshot, g: Snapshot, run: set<CandidateRef>, keep: set<CandidateRef>)
    requires Coherent(f) && Coherent(g)
  {
    forall t :: Trusted(CellAt(f, t), run, keep) ==> CellAt(g, t) == CellAt(f, t)
  }

  lemma ReadsAreTrusted(p: Policy, f: Snapshot, c: Candidate, d: Decision, run: set<CandidateRef>,
                        keep: set<CandidateRef>)
    requires Coherent(f) && Accepts(p, f.entries, c, d)
    requires DependenciesFor(f, c, d) * run <= keep
    ensures forall t | t in Reads(f, c, d) :: Trusted(CellAt(f, t), run, keep)
  {
    if d.operation == ADD { AddFindsEmptySlot(f, c, d); }
    forall t, x | t in Reads(f, c, d) && x in CellSupport(CellAt(f, t)) ensures x in DependenciesFor(f, c, d) {
      DependenciesAreReadSupport(f, c, d, x);
    }
  }

  lemma KeptStep(p: Policy, f: Snapshot, g: Snapshot, m: Move, run: set<CandidateRef>, keep: set<CandidateRef>)
    requires Coherent(f) && Coherent(g) && Agree(f, g, run, keep)
    requires Fresh(f, [m]) && Fresh(g, [m])
    requires Accepts(p, f.entries, m.candidate, m.decision)
    requires DependenciesFor(f, m.candidate, m.decision) * run <= keep
    ensures var (f', o) := Step(p, f, m.candidate, m.decision); var (g', o') := Step(p, g, m.candidate, m.decision);
      Coherent(f') && Coherent(g') && o' == o && Agree(f', g', run, keep)
  {
    hide Step, NewEntry, DependenciesFor, Permitted, ContentOk;
    var c, d := m.candidate, m.decision;
    assert m in [m];
    ReadsAreTrusted(p, f, c, d, run, keep);
    assert ReadsEqual(f, g, c, d);
    assert ReadsAgree(f, g, c, d);
    StepTransfers(p, f, g, c, d);
    EqualReadsEqualEffect(p, f, g, c, d);
    StepIsAtomic(p, f, c, d);
    StepIsAtomic(p, g, c, d);
    var f', g' := Step(p, f, c, d).0, Step(p, g, c, d).0;
    forall t | Trusted(CellAt(f', t), run, keep) ensures CellAt(g', t) == CellAt(f', t) {
      assert CellAt(f', t) == NextCell(p, f, c, d, t) && CellAt(g', t) == NextCell(p, g, c, d, t);
    }
  }

  lemma DroppedStep(p: Policy, f: Snapshot, g: Snapshot, m: Move, run: set<CandidateRef>, keep: set<CandidateRef>)
    requires Coherent(f) && Coherent(g) && Agree(f, g, run, keep)
    requires Fresh(f, [m])
    requires Accepts(p, f.entries, m.candidate, m.decision)
    requires Index(m) in run && Index(m) !in keep
    ensures var f' := Step(p, f, m.candidate, m.decision).0; Coherent(f') && Agree(f', g, run, keep)
  {
    hide Step, Accepts, Coherent, CellAt, DependenciesFor, Touched;
    var c, d := m.candidate, m.decision;
    assert m in [m];
    StepIsAtomic(p, f, c, d);
    var f' := Step(p, f, c, d).0;
    forall t ensures Trusted(CellAt(f', t), run, keep) ==> CellAt(g, t) == CellAt(f', t) {
      assert CellAt(f', t) == NextCell(p, f, c, d, t);
      if t in Touched(f, c, d) {
        assert c.index in CellSupport(CellAt(f', t)) * run;
      }
    }
  }

  // Taking a step off the front of a run.
  lemma FrontOfRun(p: Policy, s: Snapshot, moves: seq<Move>, run: set<CandidateRef>)
    requires Coherent(s) && moves != [] && DistinctIndices(moves) && Fresh(s, moves) && Indices(moves) <= run
    ensures var s' := Step(p, s, moves[0].candidate, moves[0].decision).0;
      && Coherent(s') && Fresh(s, [moves[0]]) && Fresh(s, moves[1..]) && Fresh(s', moves[1..])
      && DistinctIndices(moves[1..]) && Indices(moves[1..]) <= run && Index(moves[0]) in run
  {
    assert moves[0] in moves;
    assert Index(moves[0]) in Indices(moves);
    StepIsAtomic(p, s, moves[0].candidate, moves[0].decision);
    forall m | m in moves[1..] ensures m in moves && Index(m) != Index(moves[0]) {
      var i :| 0 <= i < |moves| - 1 && moves[1..][i] == m;
      assert moves[i + 1] == m;
    }
  }

  /** Replaying, from g, only the kept decisions of a run that succeeds from f
      succeeds step by step with the same projected entries and the same recorded
      dependencies, provided the kept set is closed under the dependencies recorded
      in the full run and g agrees with f on what kept decisions alone support. */
  lemma {:induction false} SubrunReplays(p: Policy, f: Snapshot, g: Snapshot, moves: seq<Move>, run: set<CandidateRef>,
                                         keep: set<CandidateRef>)
    requires Coherent(f) && Coherent(g) && Agree(f, g, run, keep)
    requires DistinctIndices(moves) && Fresh(f, moves) && Fresh(g, moves) && Indices(moves) <= run
    requires AllApplied(p, f, moves) && Closed(moves, Outcomes(p, f, moves), run, keep)
    ensures AllApplied(p, g, Kept(moves, keep))
    ensures Outcomes(p, g, Kept(moves, keep)) == KeptOutcomes(moves, Outcomes(p, f, moves), keep)
    ensures Coherent(Final(p, f, moves)) && Coherent(Final(p, g, Kept(moves, keep)))
    ensures Agree(Final(p, f, moves), Final(p, g, Kept(moves, keep)), run, keep)
    decreases |moves|
  {
    hide Step, Accepts, Agree, Closed;
    if moves != [] {
      var m, rest := moves[0], moves[1..];
      FrontOfRun(p, f, moves, run);
      FrontOfRun(p, g, moves, run);
      var (f', o) := Step(p, f, m.candidate, m.decision);
      StepIsAtomic(p, f, m.candidate, m.decision);
      assert Outcomes(p, f, moves)[1..] == Outcomes(p, f', rest);
      ClosedTail(moves, Outcomes(p, f, moves), run, keep);
      if Index(m) in keep {
        KeptStep(p, f, g, m, run, keep);
        var (g', o') := Step(p, g, m.candidate, m.decision);
        SubrunReplays(p, f', g', rest, run, keep);
        assert Kept(moves, keep)[1..] == Kept(rest, keep);
      } else {
        DroppedStep(p, f, g, m, run, keep);
        SubrunReplays(p, f', g, rest, run, keep);
        assert Kept(moves, keep) == Kept(rest, keep);
      }
    }
  }

  // The initial snapshot owes nothing to the candidates of the run.
  ghost predicate Independent(s: Snapshot, run: set<CandidateRef>)
    requires Coherent(s)
  {
    forall t :: CellSupport(CellAt(s, t)) !! run
  }

  /** Dependency soundness.  From any initial snapshot that owes nothing to the
      run, every dependency-closed part of an accepted run passes every validation
      on its own and projects the same entries, including an ADD into a slot that
      an earlier kept decision emptied. */
  lemma DependencySoundness(p: Policy, s: Snapshot, moves: seq<Move>, keep: set<CandidateRef>)
    requires Coherent(s) && DistinctIndices(moves) && Fresh(s, moves) && Independent(s, Indices(moves))
    requires AllApplied(p, s, moves) && Closed(moves, Outcomes(p, s, moves), Indices(moves), keep)
    ensures AllApplied(p, s, Kept(moves, keep))
    ensures Outcomes(p, s, Kept(moves, keep)) == KeptOutcomes(moves, Outcomes(p, s, moves), keep)
  {
    SubrunReplays(p, s, s, moves, Indices(moves), keep);
  }

  // ----- transitive closure ----------------------------------------------------

  // x counts as settled by `known` when it is outside the run or its own recorded
  // dependencies are included too.
  ghost predicate Settled(support: set<CandidateRef>, known: map<CandidateRef, set<CandidateRef>>,
                          run: set<CandidateRef>)
  {
    forall x | x in support && x in run :: x in known && known[x] <= support
  }

  ghost predicate AllSettled(s: Snapshot, known: map<CandidateRef, set<CandidateRef>>, run: set<CandidateRef>)
    requires Coherent(s)
  {
    forall t :: Settled(CellSupport(CellAt(s, t)), known, run)
  }

  // What an accepted decision depends on is closed, because everything it reads is.
  lemma DependenciesAreSettled(s: Snapshot, c: Candidate, d: Decision, known: map<CandidateRef, set<CandidateRef>>,
                               run: set<CandidateRef>)
    requires Coherent(s) && AllSettled(s, known, run) && WellAimed(s.entries, c, d)
    ensures Settled(DependenciesFor(s, c, d), known, run)
  {
    hide CellAt;
    var deps := DependenciesFor(s, c, d);
    if d.operation == ADD { AddFindsEmptySlot(s, c, d); }
    forall x | x in deps && x in run ensures x in known && known[x] <= deps {
      DependenciesAreReadSupport(s, c, d, x);
      var t :| t in Reads(s, c, d) && x in CellSupport(CellAt(s, t));
      assert Settled(CellSupport(CellAt(s, t)), known, run);
      forall y | y in known[x] ensures y in deps {
        DependenciesAreReadSupport(s, c, d, y);
      }
    }
  }

  lemma StepStaysSettled(p: Policy, s: Snapshot, m: Move, known: map<CandidateRef, set<CandidateRef>>,
                         run: set<CandidateRef>)
    requires Coherent(s) && AllSettled(s, known, run) && Fresh(s, [m]) && Index(m) !in known
    requires Accepts(p, s.entries, m.candidate, m.decision)
    ensures var deps := DependenciesFor(s, m.candidate, m.decision); var s' := Step(p, s, m.candidate, m.decision).0;
      Settled(deps, known, run) && Coherent(s') && AllSettled(s', known[Index(m) := deps], run)
  {
    hide Step, DependenciesFor, Permitted, ContentOk, Coherent, CellAt, WellAimed, Touched;
    var c, d := m.candidate, m.decision;
    assert m in [m];
    var deps := DependenciesFor(s, c, d);
    DependenciesAreSettled(s, c, d, known, run);
    StepIsAtomic(p, s, c, d);
    var s' := Step(p, s, c, d).0;
    var known' := known[c.index := deps];
    forall t ensures Settled(CellSupport(CellAt(s', t)), known', run) {
      assert CellAt(s', t) == NextCell(p, s, c, d, t);
      if t in Touched(s, c, d) {
        assert CellSupport(CellAt(s', t)) == deps + {c.index};
      } else {
        assert Settled(CellSupport(CellAt(s, t)), known, run);
      }
    }
  }

  // Dependency x of decision i is settled by `known` or by an earlier decision of the run.
  ghost predicate Grounded(moves: seq<Move>, os: seq<Outcome>, known: map<CandidateRef, set<CandidateRef>>, i: int,
                           x: CandidateRef)
  {
    || (x in known && known[x] <= Recorded(os, i))
    || exists j :: 0 <= j < i < |moves| && Index(moves[j]) == x && Recorded(os, j) <= Recorded(os, i)
  }

  ghost predicate ClosedUnderRecord(moves: seq<Move>, os: seq<Outcome>, known: map<CandidateRef, set<CandidateRef>>,
                                    run: set<CandidateRef>)
  {
    forall i, x :: 0 <= i < |moves| && x in Recorded(os, i) && x in run ==> Grounded(moves, os, known, i, x)
  }

  lemma GroundedInFront(moves: seq<Move>, os: seq<Outcome>, known: map<CandidateRef, set<CandidateRef>>,
                        run: set<CandidateRef>)
    requires |os| == |moves| > 0 && os[0].Applied? && Settled(os[0].dependencies, known, run)
    requires ClosedUnderRecord(moves[1..], os[1..], known[Index(moves[0]) := os[0].dependencies], run)
    ensures ClosedUnderRecord(moves, os, known, run)
  {
    var known' := known[Index(moves[0]) := os[0].dependencies];
    forall i, x | 0 <= i < |moves| && x in Recorded(os, i) && x in run ensures Grounded(moves, os, known, i, x) {
      if i == 0 {
        assert Recorded(os, 0) == os[0].dependencies;
      } else {
        assert Recorded(os[1..], i - 1) == Recorded(os, i);
        assert Grounded(moves[1..], os[1..], known', i - 1, x);
        if x in known' && known'[x] <= Recorded(os, i) {
          if x == Index(moves[0]) {
            assert Recorded(os, 0) <= Recorded(os, i);
          }
        } else {
          var j :| 0 <= j < i - 1 && Index(moves[1..][j]) == x && Recorded(os[1..], j) <= Recorded(os[1..], i - 1);
          assert Index(moves[j + 1]) == x && Recorded(os, j + 1) == Recorded(os[1..], j);
        }
      }
    }
  }

  lemma {:induction false} RunStaysClosed(p: Policy, s: Snapshot, moves: seq<Move>,
                                          known: map<CandidateRef, set<CandidateRef>>, run: set<CandidateRef>)
    requires Coherent(s) && AllSettled(s, known, run)
    requires DistinctIndices(moves) && Fresh(s, moves) && Indices(moves) <= run && known.Keys !! Indices(moves)
    requires AllApplied(p, s, moves)
    ensures ClosedUnderRecord(moves, Outcomes(p, s, moves), known, run)
    decreases |moves|
  {
    hide Step, Accepts, AllSettled, Settled;
    if moves != [] {
      var m, rest := moves[0], moves[1..];
      FrontOfRun(p, s, moves, run);
      assert Index(m) in Indices(moves);
      StepIsAtomic(p, s, m.candidate, m.decision);
      StepStaysSettled(p, s, m, known, run);
      var (s', o) := Step(p, s, m.candidate, m.decision);
      forall x | x in Indices(rest) ensures x != Index(m) && x in Indices(moves) {
        var i :| 0 <= i < |rest| && Index(rest[i]) == x;
        assert moves[i + 1] == rest[i];
      }
      RunStaysClosed(p, s', rest, known[Index(m) := o.dependencies], run);
      var os := Outcomes(p, s, moves);
      assert os[1..] == Outcomes(p, s', rest);
      GroundedInFront(moves, os, known, run);
    }
  }

  // x is the candidate of an earlier decision whose own dependencies are included in those of i.
  ghost predicate PointsBack(moves: seq<Move>, os: seq<Outcome>, i: int, x: CandidateRef) {
    exists j :: 0 <= j < i < |moves| && Index(moves[j]) == x && Recorded(os, j) <= Recorded(os, i)
  }

  ghost predicate RecordIsTransitive(moves: seq<Move>, os: seq<Outcome>) {
    forall i, x :: 0 <= i < |moves| && x in Recorded(os, i) && x in Indices(moves) ==> PointsBack(moves, os, i, x)
  }

  /** Recorded dependencies are transitively closed and point backwards: each one
      inside the run belongs to an earlier decision, whose own dependencies are
      included. */
  lemma DependenciesAreTransitive(p: Policy, s: Snapshot, moves: seq<Move>)
    requires Coherent(s) && DistinctIndices(moves) && Fresh(s, moves) && Independent(s, Indices(moves))
    requires AllApplied(p, s, moves)
    ensures RecordIsTransitive(moves, Outcomes(p, s, moves))
  {
    hide Step, Outcomes, AllApplied, Coherent, CellAt;
    forall t ensures Settled(CellSupport(CellAt(s, t)), map[], Indices(moves)) {
      assert CellSupport(CellAt(s, t)) !! Indices(moves);
    }
    RunStaysClosed(p, s, moves, map[], Indices(moves));
    var os := Outcomes(p, s, moves);
    forall i, x | 0 <= i < |moves| && x in Recorded(os, i) && x in Indices(moves)
      ensures PointsBack(moves, os, i, x)
    {
      assert Grounded(moves, os, map[], i, x);
    }
  }

  /** The recorded dependencies of one decision, with the decision itself, form a
      part of the run that replays alone. */
  lemma RecordedDependenciesSuffice(p: Policy, s: Snapshot, moves: seq<Move>, i: nat)
    requires Coherent(s) && DistinctIndices(moves) && Fresh(s, moves) && Independent(s, Indices(moves))
    requires AllApplied(p, s, moves) && i < |moves|
    ensures var os := Outcomes(p, s, moves); var keep := Recorded(os, i) + {Index(moves[i])};
      && AllApplied(p, s, Kept(moves, keep))
      && Outcomes(p, s, Kept(moves, keep)) == KeptOutcomes(moves, os, keep)
  {
    hide Step, Coherent, CellAt;
    var os := Outcomes(p, s, moves);
    var keep := Recorded(os, i) + {Index(moves[i])};
    DependenciesAreTransitive(p, s, moves);
    assert RecordIsTransitive(moves, os);
    forall k | 0 <= k < |moves| && Index(moves[k]) in keep ensures Recorded(os, k) * Indices(moves) <= keep {
      if k != i {
        assert Index(moves[k]) in Recorded(os, i) && Index(moves[k]) in Indices(moves);
        assert PointsBack(moves, os, i, Index(moves[k]));
        var j :| 0 <= j < i && Index(moves[j]) == Index(moves[k]) && Recorded(os, j) <= Recorded(os, i);
        assert j == k;
      }
    }
    DependencySoundness(p, s, moves, keep);
  }

  lemma {:induction false} RunAppend(p: Policy, s: Snapshot, moves: seq<Move>, m: Move)
    requires AllApplied(p, s, moves) && Step(p, Final(p, s, moves), m.candidate, m.decision).1.Applied?
    ensures AllApplied(p, s, moves + [m])
    ensures Final(p, s, moves + [m]) == Step(p, Final(p, s, moves), m.candidate, m.decision).0
    ensures Outcomes(p, s, moves + [m]) == Outcomes(p, s, moves)
      + [Step(p, Final(p, s, moves), m.candidate, m.decision).1]
    decreases |moves|
  {
    hide Step;
    if moves == [] {
      assert [m][1..] == [];
    } else {
      RunAppend(p, Step(p, s, moves[0].candidate, moves[0].decision).0, moves[1..], m);
      assert (moves + [m])[1..] == moves[1..] + [m];
    }
  }
}
