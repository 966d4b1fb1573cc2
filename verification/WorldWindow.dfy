/**
 The look-ahead window over world-setting comparison batches, from
 app/analysis/world_setting_manuscript_pipeline.py, against the plain loop that claims
 and compares one batch at a time.

 The backend's answers are a script: the k-th claim call gets the k-th answer.
 */
module WorldWindow {
  import opened Options
  import opened Sequences

  type BatchId(==, !new)

  type Key(==, !new)

  type Origin(==, !new)

  type Context(==, !new)

  type Outcome(==, 0, !new)

  type Error(==, !new)

  // Origin stands for the work, the episode and the source of a batch.
  datatype Batch = Batch(id: BatchId, origin: Origin, keys: set<Key>)

  datatype Answer = Got(batch: Batch) | Ended | Broke(error: Error)

  type Script = nat -> Answer

  // What one call of `outcome` meets.  A batch is usable if its group can be built; the
  // context of a following batch is there unless loading it or building its group fails;
  // and a comparison ends with an outcome for each group or with an error beyond recovery.
  datatype World = World(
    usable: Batch -> bool, load: Batch -> Option<Context>, fits: seq<Batch> -> bool,
    compare: (seq<Batch>, seq<Context>) -> Option<nat -> Outcome>)

  // What the pipeline is served: a prefetched outcome or none, or an error.
  datatype Served = Served(outcome: Option<Outcome>) | Raised

  function Answers(script: Script, n: nat): (answers: seq<Answer>)
    ensures |answers| == n
  {
    seq(n, k requires 0 <= k => script(k))
  }

  // The batches among some answers, in order.
  function Batches(answers: seq<Answer>): seq<Batch> {
    if answers == [] then []
    else
      Batches(answers[..|answers| - 1])
      + (match answers[|answers| - 1] case Got(b) => [b] case Ended => [] case Broke(_) => [])
  }

  function Gots(batches: seq<Batch>): (answers: seq<Answer>)
    ensures |answers| == |batches|
  {
    seq(|batches|, k requires 0 <= k < |batches| => Got(batches[k]))
  }

  lemma AnswersMore(script: Script, n: nat)
    ensures Answers(script, n + 1) == Answers(script, n) + [script(n)]
    ensures Batches(Answers(script, n + 1)) == Batches(Answers(script, n))
      + (if script(n).Got? then [script(n).batch] else [])
  {
    assert Answers(script, n + 1)[..n] == Answers(script, n);
  }

  // No two claim calls return batches with one id.
  ghost predicate DistinctIds(script: Script) {
    forall i: nat, j: nat | i < j && script(i).Got? && script(j).Got? :: script(i).batch.id != script(j).batch.id
  }

  // Groups that may share one request: one origin, and no common identity.
  ghost predicate OneRequest(batches: seq<Batch>) {
    forall i, j :: 0 <= i < j < |batches| ==>
      batches[i].keys !! batches[j].keys && batches[i].origin == batches[j].origin
  }

  function AllKeys(batches: seq<Batch>): set<Key> {
    set b, k | b in batches && k in b.keys :: k
  }

  lemma OneRequestMore(batches: seq<Batch>, next: Batch)
    requires batches != [] && OneRequest(batches) && AllKeys(batches) !! next.keys && next.origin == batches[0].origin
    ensures OneRequest(batches + [next])
  {
    var more := batches + [next];
    forall i, j | 0 <= i < j < |more| ensures more[i].keys !! more[j].keys && more[i].origin == more[j].origin {
      if j == |batches| {
        assert more[i] in batches;
        assert forall k | k in more[i].keys :: k in AllKeys(batches);
        assert i > 0 ==> batches[0].origin == batches[i].origin;
      }
    }
  }

  // A batch may join a request if it shares its origin and no identity, and its context loads and fits.
  predicate Joins(world: World, batches: seq<Batch>, next: Batch)
    requires batches != []
  {
    AllKeys(batches) !! next.keys && next.origin == batches[0].origin && world.load(next).Some?
      && world.fits(batches + [next])
  }

  // A request as the look-ahead collects it: every batch after the first could join the ones before.
  ghost predicate Collected(world: World, batches: seq<Batch>, contexts: seq<Context>) {
    && batches != [] && |contexts| == |batches| && OneRequest(batches)
    && (forall k | 1 <= k < |batches| ::
      Joins(world, batches[..k], batches[k]) && contexts[k] == world.load(batches[k]).value)
  }

  lemma CollectedMore(world: World, batches: seq<Batch>, contexts: seq<Context>, next: Batch)
    requires Collected(world, batches, contexts) && Joins(world, batches, next)
    ensures Collected(world, batches + [next], contexts + [world.load(next).value])
    ensures AllKeys(batches + [next]) == AllKeys(batches) + next.keys
  {
    hide AllKeys;
    OneRequestMore(batches, next);
    KeysMore(batches, next);
    var more, loaded := batches + [next], contexts + [world.load(next).value];
    forall k | 1 <= k < |more| ensures Joins(world, more[..k], more[k]) && loaded[k] == world.load(more[k]).value {
      assert more[..k] == if k < |batches| then batches[..k] else batches;
    }
  }

  lemma CollectedSizes(world: World, batches: seq<Batch>, contexts: seq<Context>)
    requires Collected(world, batches, contexts)
    ensures batches != [] && |contexts| == |batches|
  {
  }

  lemma KeysMore(batches: seq<Batch>, next: Batch)
    ensures AllKeys(batches + [next]) == AllKeys(batches) + next.keys
  {
  }

  lemma CollectedFirst(world: World, batch: Batch, context: Context)
    ensures Collected(world, [batch], [context]) && AllKeys([batch]) == batch.keys
  {
  }

  // The answers from one claim call up to another.
  function Between(script: Script, from: nat, to: nat): (answers: seq<Answer>)
    requires from <= to
    ensures |answers| == to - from
  {
    seq(to - from, k requires 0 <= k => script(from + k))
  }

  lemma BetweenMore(script: Script, from: nat, to: nat)
    requires from <= to
    ensures Batches(Between(script, from, to + 1)) == Batches(Between(script, from, to))
      + (if script(to).Got? then [script(to).batch] else [])
  {
    var more := Between(script, from, to + 1);
    assert more[..to - from] == Between(script, from, to) && more[to - from] == script(to);
  }

  // What was delivered, then the queue, is all that was claimed: always as a multiset,
  // without a reset also in order.
  ghost predicate Balanced(answers: seq<Answer>, delivered: seq<Batch>, queue: seq<Batch>, noReset: bool) {
    && multiset(delivered) + multiset(queue) == multiset(Batches(answers))
    && (noReset ==> delivered + queue == Batches(answers))
  }

  lemma DeliverFirst(answers: seq<Answer>, delivered: seq<Batch>, queue: seq<Batch>, noReset: bool)
    requires Balanced(answers, delivered, queue, noReset) && queue != []
    ensures Balanced(answers, delivered + [queue[0]], queue[1..], noReset)
  {
    hide Batches;
    assert queue == [queue[0]] + queue[1..];
    assert delivered + queue == delivered + [queue[0]] + queue[1..];
  }

  lemma ClaimBalances(script: Script, calls: nat, delivered: seq<Batch>, queue: seq<Batch>, noReset: bool)
    requires Balanced(Answers(script, calls), delivered, queue, noReset)
    ensures Balanced(Answers(script, calls + 1), delivered,
                     if script(calls).Got? then queue + [script(calls).batch] else queue, noReset)
  {
    hide Batches;
    AnswersMore(script, calls);
    if script(calls).Got? {
      assert delivered + (queue + [script(calls).batch]) == delivered + queue + [script(calls).batch];
    } else {
      assert Batches(Answers(script, calls + 1)) == Batches(Answers(script, calls));
    }
  }

  // After a reset a batch may enter at the head of the queue.
  lemma EnterBalances(script: Script, calls: nat, delivered: seq<Batch>, queue: seq<Batch>, was: bool)
    requires Balanced(Answers(script, calls), delivered, queue, was)
    ensures Balanced(Answers(script, calls), delivered, queue, false)
    ensures Balanced(Answers(script, calls + 1), delivered,
                     if script(calls).Got? then [script(calls).batch] + queue else queue, false)
  {
    hide Batches;
    AnswersMore(script, calls);
  }

  // ----- the order of what surfaces ----------------------------------------------------

  // How claiming stands.  `due` is the first error that the look-ahead met, the answer to
  // call `errorAt`; `overtaken` says that a batch was claimed while an error was waiting.
  datatype Ends = Ends(
    over: bool, exhausted: bool, claimError: Option<Error>, due: Option<Error>, errorAt: nat, overtaken: bool)

  // What was surfaced and is queued, against the answers of the claim calls.
  ghost predicate Ordered(script: Script, calls: nat, line: seq<Answer>, e: Ends) {
    && (e.due.Some? <==> e.claimError.Some?)
    && (e.due.Some? ==> e.errorAt < calls && script(e.errorAt) == Broke(e.due.value))
    && (e.overtaken ==> e.due.Some? && e.errorAt < |line| && line[e.errorAt].Got?)
    && (e.due.Some? && !e.overtaken ==>
      line == Answers(script, e.errorAt) + if e.over then [Broke(e.claimError.value)] else [])
    && (e.due.None? ==> Answers(script, calls) == line + if e.exhausted && !e.over then [Ended] else [])
  }

  // What is still to surface once the queue is empty, as far as it is known.
  function Tail(e: Ends): seq<Answer> {
    if e.over then [] else if e.claimError.Some? then [Broke(e.claimError.value)] else if e.exhausted then [Ended]
      else []
  }

  // One more claim of the look-ahead.
  function AfterClaim(e: Ends, a: Answer, at: nat): Ends {
    var first := a.Broke? && e.due.None?;
    Ends(e.over, a.Ended?, if a.Broke? then Some(a.error) else e.claimError, if first then Some(a.error) else e.due,
         if first then at else e.errorAt, e.overtaken || (a.Got? && e.claimError.Some?))
  }

  lemma ClaimIsOrdered(script: Script, calls: nat, line: seq<Answer>, e: Ends)
    requires Ordered(script, calls, line, e) && !e.over && !e.exhausted
    ensures var a := script(calls);
      Ordered(script, calls + 1, if a.Got? then line + [a] else line, AfterClaim(e, a, calls))
  {
    hide Batches;
    AnswersMore(script, calls);
  }

  // With an empty queue the waiting error surfaces, or else the end does.
  lemma TailIsOrdered(script: Script, calls: nat, surfaced: seq<Answer>, e: Ends)
    requires Ordered(script, calls, surfaced, e) && !e.over && Tail(e) != []
    ensures Ordered(script, calls, surfaced + Tail(e), e.(over := true))
  {
  }

  // A claim that the pipeline makes itself surfaces at once.
  lemma FreshIsOrdered(script: Script, calls: nat, surfaced: seq<Answer>, e: Ends)
    requires Ordered(script, calls, surfaced, e) && !e.over && Tail(e) == []
    ensures var a := script(calls);
      Ordered(script, calls + 1, surfaced + [a], e.(exhausted := a.Ended?, over := !a.Got?))
  {
    hide Batches;
    AnswersMore(script, calls);
  }

  /** What surfaced, the queue and the waiting end are a prefix of the answers exactly if
      no batch was claimed past a waiting error and that error is still the first one. */
  lemma OrderedAgrees(script: Script, calls: nat, line: seq<Answer>, e: Ends)
    requires Ordered(script, calls, line, e)
    ensures line + Tail(e) <= Answers(script, calls) <==> !e.overtaken && e.claimError == e.due
  {
    var answers, all := Answers(script, calls), line + Tail(e);
    if e.due.None? {
      assert all == answers;
    } else if e.overtaken {
      assert all[e.errorAt] == line[e.errorAt] != answers[e.errorAt];
    } else {
      assert all == Answers(script, e.errorAt) + [Broke(e.claimError.value)];
      assert all[e.errorAt] == Broke(e.claimError.value) && answers[e.errorAt] == Broke(e.due.value);
      if e.claimError == e.due {
        assert all == answers[..e.errorAt + 1];
      }
    }
  }

  // The claims of one look-ahead, from one call up to another: only the last may have brought
  // no batch, and the queue grew by the batches.
  ghost predicate Claimed(script: Script, from: nat, was: Ends, before: seq<Batch>, to: nat, now: Ends,
                          queue: seq<Batch>)
  {
    && from <= to && queue == before + Batches(Between(script, from, to))
    && (forall k | from <= k < to - 1 :: script(k).Got?)
    && (from == to ==> now == was)
    && (from < to ==>
      && !was.exhausted && now.over == was.over
      && now.exhausted == script(to - 1).Ended?
      && now.claimError == (if script(to - 1).Broke? then Some(script(to - 1).error) else was.claimError)
      && now.due == (if was.due.Some? then was.due else if script(to - 1).Broke? then now.claimError else None)
      && now.overtaken == (was.overtaken || (was.claimError.Some? && script(from).Got?)))
  }

  // Nothing more is to be had: claiming has ended, or the last claim was an error.
  predicate NoMore(script: Script, from: nat, to: nat, exhausted: bool) {
    exhausted || (from < to && script(to - 1).Broke?)
  }

  // Why the look-ahead stops: the next batch may not join, or there is none; and it claims
  // only when the queue is used up.
  ghost predicate Stops(script: Script, world: World, request: seq<Batch>, next: seq<Batch>, from: nat, to: nat,
                        exhausted: bool)
    requires request != []
  {
    && (from < to ==> |next| <= 1)
    && if next == [] then NoMore(script, from, to, exhausted) else !Joins(world, request, next[0])
  }

  lemma NothingClaimed(script: Script, calls: nat, e: Ends, before: seq<Batch>)
    ensures Claimed(script, calls, e, before, calls, e, before)
  {
    assert Between(script, calls, calls) == [];
  }

  lemma ClaimedMore(script: Script, from: nat, was: Ends, before: seq<Batch>, to: nat, now: Ends, queue: seq<Batch>)
    requires Claimed(script, from, was, before, to, now, queue) && !now.exhausted
    requires from < to ==> script(to - 1).Got?
    ensures var a := script(to);
      Claimed(script, from, was, before, to + 1, AfterClaim(now, a, to), if a.Got? then queue + [a.batch] else queue)
  {
    BetweenMore(script, from, to);
    hide Batches, Between;
  }

  lemma LineDelivers(surfaced: seq<Answer>, queue: seq<Batch>)
    requires queue != []
    ensures surfaced + [Got(queue[0])] + Gots(queue[1..]) == surfaced + Gots(queue)
  {
    assert Gots(queue) == [Got(queue[0])] + Gots(queue[1..]);
  }

  lemma LineClaims(surfaced: seq<Answer>, queue: seq<Batch>, b: Batch)
    ensures surfaced + Gots(queue + [b]) == surfaced + Gots(queue) + [Got(b)]
  {
    assert Gots(queue + [b]) == Gots(queue) + [Got(b)];
  }

  // ----- batches have one id each ---------------------------------------------------

  ghost predicate OneIdEach(batches: seq<Batch>) {
    forall i, j :: 0 <= i < j < |batches| ==> batches[i].id != batches[j].id
  }

  lemma {:induction false} ClaimedIds(script: Script, n: nat)
    requires DistinctIds(script)
    ensures forall b | b in Batches(Answers(script, n)) :: exists k: nat :: k < n && script(k) == Got(b)
    ensures OneIdEach(Batches(Answers(script, n)))
  {
    if n > 0 {
      ClaimedIds(script, n - 1);
      AnswersMore(script, n - 1);
      var before, all := Batches(Answers(script, n - 1)), Batches(Answers(script, n));
      forall b | b in all ensures exists k: nat :: k < n && script(k) == Got(b) {
        if b in before {
          var k: nat :| k < n - 1 && script(k) == Got(b);
        } else {
          assert script(n - 1) == Got(b);
        }
      }
      forall i, j | 0 <= i < j < |all| ensures all[i].id != all[j].id {
        if j == |before| {
          assert all[i] in before;
          var k: nat :| k < n - 1 && script(k) == Got(all[i]);
        }
      }
    }
  }

  // A rearrangement of batches with one id each has one id each.
  lemma PermutedIds(xs: seq<Batch>, ys: seq<Batch>)
    requires OneIdEach(ys) && multiset(xs) == multiset(ys)
    ensures OneIdEach(xs)
  {
    assert Distinct(ys);
    DistinctIsMultiplicity(ys);
    DistinctIsMultiplicity(xs);
    forall i, j | 0 <= i < j < |xs| ensures xs[i].id != xs[j].id {
      assert xs[i] in multiset(xs) && xs[j] in multiset(xs);
      var k :| 0 <= k < |ys| && ys[k] == xs[i];
      var l :| 0 <= l < |ys| && ys[l] == xs[j];
      assert xs[i] != xs[j];
      assert k != l;
    }
  }

  lemma QueueIds(delivered: seq<Batch>, queue: seq<Batch>, batch: Batch)
    requires OneIdEach(delivered + queue) && batch in delivered
    ensures OneIdEach(queue) && forall b | b in queue :: b.id != batch.id
  {
    var all := delivered + queue;
    forall i, j | 0 <= i < j < |queue| ensures queue[i].id != queue[j].id {
      assert all[|delivered| + i] == queue[i] && all[|delivered| + j] == queue[j];
    }
    var k :| 0 <= k < |delivered| && delivered[k] == batch;
    forall j | 0 <= j < |queue| ensures queue[j].id != batch.id {
      assert all[k] == batch && all[|delivered| + j] == queue[j];
    }
  }

  class ComparisonWindow {
    const script: Script
    var calls: nat
    var pending: seq<Batch>
    var cached: map<BatchId, (Context, Outcome)>
    var exhausted: bool
    var claimError: Option<Error>

    // What the pipeline has seen so far, and the batch it is working on.
    ghost var delivered: seq<Batch>
    ghost var surfaced: seq<Answer>
    ghost var current: Option<Batch>
    ghost var over: bool

    // Every outcome that a comparison produced, with the batch and the context sent for it.
    ghost var produced: set<(BatchId, Context, Outcome)>

    // No reset so far; no comparison error, beyond recovery, while a claim error was waiting.
    ghost var noReset: bool
    ghost var noRaise: bool

    // The first error of the look-ahead, its place, and whether a batch was claimed past it.
    ghost var due: Option<Error>
    ghost var errorAt: nat
    ghost var overtaken: bool

    ghost function End(): Ends
      reads this`over, this`exhausted, this`claimError, this`due, this`errorAt, this`overtaken
    {
      Ends(over, exhausted, claimError, due, errorAt, overtaken)
    }

    // No batch was claimed while a claim error was waiting, and the error is still the first.
    ghost predicate InTurn()
      reads this`overtaken, this`claimError, this`due
    {
      !overtaken && claimError == due
    }

    ghost predicate Accounts(queue: seq<Batch>)
      reads this`calls, this`delivered, this`surfaced, this`noReset, this`noRaise, this`over, this`exhausted,
        this`claimError, this`due, this`errorAt, this`overtaken
    {
      && Balanced(Answers(script, calls), delivered, queue, noReset)
      && (noReset ==> Ordered(script, calls, surfaced + Gots(queue), End()))
      && (noReset && noRaise ==> InTurn())
    }

    // After a claim error, whatever is left in the queue has its decision already.
    ghost predicate Prepared()
      reads this
    {
      && (forall b | b in pending :: b.id in cached)
      && (current.Some? ==> current.value.id in cached)
    }

    ghost predicate Valid()
      reads this
    {
      && Accounts(pending) && (current.Some? ==> current.value in delivered)
      && (noReset && noRaise && !over && claimError.Some? ==> Prepared())
      && (forall id | id in cached :: (id, cached[id].0, cached[id].1) in produced)
    }

    constructor (script: Script)
      ensures Valid() && noReset && noRaise && this.script == script
      ensures calls == 0 && delivered == [] && surfaced == [] && pending == [] && cached == map[]
      ensures End() == Ends(false, false, None, None, 0, false)
    {
      this.script, calls, pending, cached, exhausted, claimError := script, 0, [], map[], false, None;
      delivered, surfaced, current, over, produced, noReset, noRaise := [], [], None, false, {}, true, true;
      due, errorAt, overtaken := None, 0, false;
    }

    method Claim() returns (a: Answer)
      modifies this`calls, this`exhausted
      ensures old(exhausted) ==> a == Ended && calls == old(calls) && exhausted
      ensures !old(exhausted) ==> a == script(old(calls)) && calls == old(calls) + 1 && exhausted == a.Ended?
    {
      if exhausted {
        return Ended;
      }
      a := script(calls);
      calls := calls + 1;
      exhausted := a.Ended?;
    }

    method TakePending() returns (a: Answer)
      requires Valid() && !over && pending != []
      modifies this`pending, this`surfaced, this`delivered, this`current
      ensures Valid()
      ensures a == Got(old(pending)[0]) && pending == old(pending)[1..]
      ensures surfaced == old(surfaced) + [a] && delivered == old(delivered) + [a.batch] && current == Some(a.batch)
    {
      hide Balanced, Answers, Ordered;
      var b := pending[0];
      a := Got(b);
      DeliverFirst(Answers(script, calls), delivered, pending, noReset);
      LineDelivers(surfaced, pending);
      forall c | c in pending[1..] ensures c in pending {}
      pending, delivered, surfaced, current := pending[1..], delivered + [b], surfaced + [a], Some(b);
    }

    // The queue is empty and claiming has ended: the error or the end surfaces, and the run is over.
    method SurfaceEnd(a: Answer)
      requires Valid() && !over && pending == [] && Tail(End()) == [a]
      modifies this`surfaced, this`current, this`over
      ensures Valid() && surfaced == old(surfaced) + [a] && over && current == None
    {
      hide Balanced, Answers, Prepared, Ordered;
      assert surfaced + Gots(pending) == surfaced && surfaced + [a] + Gots(pending) == surfaced + [a];
      if noReset { TailIsOrdered(script, calls, surfaced, End()); }
      surfaced, current, over := surfaced + [a], None, true;
    }

    method ClaimFresh() returns (a: Answer)
      requires Valid() && !over && pending == [] && claimError.None? && !exhausted
      modifies this`calls, this`exhausted, this`surfaced, this`delivered, this`current, this`over
      ensures Valid() && a == script(old(calls)) && calls == old(calls) + 1 && exhausted == a.Ended?
      ensures surfaced == old(surfaced) + [a] && over == !a.Got?
      ensures delivered == if a.Got? then old(delivered) + [a.batch] else old(delivered)
      ensures current == if a.Got? then Some(a.batch) else None
    {
      hide Balanced, Answers, Prepared, Ordered, Gots;
      assert Gots(pending) == [] && surfaced + [] == surfaced;
      if noReset { FreshIsOrdered(script, calls, surfaced, End()); }
      ClaimBalances(script, calls, delivered, [], noReset);
      assert script(calls).Got? ==> [] + [script(calls).batch] == [script(calls).batch];
      a := Claim();
      surfaced := surfaced + [a];
      assert surfaced + [] == surfaced;
      if a.Got? {
        DeliverFirst(Answers(script, calls), delivered, [a.batch], noReset);
        assert [a.batch][1..] == pending;
        delivered, current := delivered + [a.batch], Some(a.batch);
      } else {
        current, over := None, true;
      }
    }

    /** The next batch for the pipeline: from the queue while there is one, and only
        then the look-ahead's claim error or a new claim. */
    method ClaimNext() returns (a: Answer)
      requires Valid() && !over
      modifies this`calls, this`exhausted, this`pending, this`surfaced, this`delivered, this`current, this`over
      ensures Valid()
      ensures surfaced == old(surfaced) + [a] && over == !a.Got?
      ensures delivered == if a.Got? then old(delivered) + [a.batch] else old(delivered)
      ensures current == if a.Got? then Some(a.batch) else None
      ensures old(pending) != [] ==>
        a == Got(old(pending)[0]) && pending == old(pending)[1..] && calls == old(calls) && exhausted == old(exhausted)
      ensures old(pending) == [] && old(claimError).Some? ==>
        a == Broke(old(claimError).value) && pending == [] && calls == old(calls) && exhausted == old(exhausted)
      ensures old(pending) == [] && old(claimError).None? ==>
        && pending == []
        && if old(exhausted) then a == Ended && calls == old(calls) && exhausted
           else a == script(old(calls)) && calls == old(calls) + 1 && exhausted == a.Ended?
    {
      hide Valid, Balanced;
      if pending != [] {
        a := TakePending();
      } else if claimError.Some? {
        a := Broke(claimError.value);
        SurfaceEnd(a);
      } else if exhausted {
        a := Claim();
        SurfaceEnd(a);
      } else {
        a := ClaimFresh();
      }
    }

    // One claim of the look-ahead; an error is kept for later, even past another one.
    method ClaimAhead(ghost queue: seq<Batch>) returns (a: Answer)
      requires !over && Accounts(queue) && (noReset && noRaise ==> claimError.None?)
      modifies this`calls, this`exhausted, this`claimError, this`due, this`errorAt, this`overtaken
      ensures Accounts(if a.Got? then queue + [a.batch] else queue)
      ensures if old(exhausted) then a == Ended && calls == old(calls) && End() == old(End())
        else a == script(old(calls)) && calls == old(calls) + 1 && End() == AfterClaim(old(End()), a, old(calls))
      ensures noReset && old(InTurn()) ==>
        (InTurn() <==> old(exhausted) || old(claimError).None? || a.Ended? || a == Broke(old(claimError).value))
    {
      hide Balanced, Answers, Ordered;
      if !exhausted {
        if noReset { ClaimIsOrdered(script, calls, surfaced + Gots(queue), End()); }
        ClaimBalances(script, calls, delivered, queue, noReset);
        if script(calls).Got? { LineClaims(surfaced, queue, script(calls).batch); }
        overtaken := overtaken || (script(calls).Got? && claimError.Some?);
        if script(calls).Broke? && due.None? {
          due, errorAt := Some(script(calls).error), calls;
        }
      }
      a := Claim();
      if a.Broke? {
        claimError := Some(a.error);
      }
    }

    // The next batch of the look-ahead: the head of the queue, or else one more claim.
    method TakeFollowing(ghost front: seq<Batch>, ghost from: nat, ghost was: Ends, ghost before: seq<Batch>)
      returns (following: Option<Batch>)
      requires !over && Accounts(front + pending) && (noReset && noRaise ==> claimError.None?)
      requires Claimed(script, from, was, before, calls, End(), front + pending)
      requires from < calls ==> pending == [] && script(calls - 1).Got?
      modifies this`calls, this`exhausted, this`claimError, this`due, this`errorAt, this`overtaken, this`pending
      ensures var taken := if following.Some? then [following.value] else [];
        Accounts(front + taken + pending) && Claimed(script, from, was, before, calls, End(), front + taken + pending)
      ensures following.None? ==> pending == [] && NoMore(script, from, calls, exhausted)
      ensures following.Some? ==>
        claimError == old(claimError) && (from < calls ==> pending == [] && script(calls - 1).Got?)
    {
      hide Balanced, Answers, Accounts, Ordered, Batches, Between;
      if pending != [] {
        following := Some(pending[0]);
        assert front + pending == front + [pending[0]] + pending[1..];
        pending := pending[1..];
      } else {
        assert front + pending == front;
        if !exhausted { ClaimedMore(script, from, was, before, calls, End(), front); }
        var a := ClaimAhead(front);
        following := if a.Got? then Some(a.batch) else None;
        assert front + [] + pending == front;
        assert a.Got? ==> front + [a.batch] + pending == front + [a.batch];
      }
    }

    // While looking ahead: what was collected, then the queue.
    ghost predicate Looking(world: World, batches: seq<Batch>, contexts: seq<Context>, identities: set<Key>,
                            from: nat, was: Ends, before: seq<Batch>)
      reads this`calls, this`delivered, this`surfaced, this`noReset, this`noRaise, this`over, this`exhausted,
        this`claimError, this`due, this`errorAt, this`overtaken, this`pending
    {
      && batches != [] && Collected(world, batches, contexts) && identities == AllKeys(batches)
      && Accounts(batches[1..] + pending) && Claimed(script, from, was, before, calls, End(), batches[1..] + pending)
    }

    // One look: the next batch joins, goes back to the head of the queue, or there is none.
    method LookOnce(world: World, batches0: seq<Batch>, contexts0: seq<Context>, identities0: set<Key>,
                    ghost from: nat, ghost was: Ends, ghost before: seq<Batch>)
      returns (stop: bool, batches: seq<Batch>, contexts: seq<Context>, identities: set<Key>)
      requires !over && (noReset && noRaise ==> claimError.None?)
      requires Looking(world, batches0, contexts0, identities0, from, was, before)
      requires from < calls ==> pending == [] && script(calls - 1).Got?
      modifies this`calls, this`exhausted, this`claimError, this`due, this`errorAt, this`overtaken, this`pending
      ensures Looking(world, batches, contexts, identities, from, was, before)
      ensures if stop then batches == batches0 && contexts == contexts0
        && Stops(script, world, batches, pending, from, calls, exhausted)
        else
          && |batches| == |batches0| + 1 && world.fits(batches) && batches0 <= batches && contexts0 <= contexts
          && claimError == old(claimError) && (from < calls ==> pending == [] && script(calls - 1).Got?)
      ensures claimError == old(claimError) || pending == []
    {
      hide Balanced, Answers, Accounts, Collected, AllKeys, Ordered, Batches, Between, Claimed;
      batches, contexts, identities := batches0, contexts0, identities0;
      CollectedSizes(world, batches, contexts);
      ghost var siblings := batches[1..];
      var following := TakeFollowing(siblings, from, was, before);
      if following.None? {
        assert siblings + [] + pending == siblings + pending;
        return true, batches, contexts, identities;
      }
      var next := following.value;
      var loaded := world.load(next);
      if identities !! next.keys && next.origin == batches[0].origin && loaded.Some? && world.fits(batches + [next]) {
        CollectedMore(world, batches, contexts, next);
        assert (batches + [next])[1..] == siblings + [next];
        batches, contexts, identities, stop := batches + [next], contexts + [loaded.value], identities + next.keys,
          false;
      } else {
        assert siblings + ([next] + pending) == siblings + [next] + pending;
        pending, stop := [next] + pending, true;
      }
    }

    // The request that the look-ahead collects, and the claims that it makes for it.
    ghost predicate Collects(world: World, request: seq<Batch>, contexts: seq<Context>, from: nat, was: Ends,
                             before: seq<Batch>)
      reads this`calls, this`over, this`exhausted, this`claimError, this`due, this`errorAt, this`overtaken, this`pending
    {
      && Collected(world, request, contexts) && request[1..] <= pending
      && Claimed(script, from, was, before, calls, End(), pending)
      && Stops(script, world, request, pending[|request| - 1..], from, calls, exhausted)
    }

    /** The look-ahead collects groups for one request and puts every batch it took back
        into the queue, in its place: the queue only grows at its end, by what was claimed.
        It claims only when the queue is used up, and stops at the first batch that may not
        join, at an error, or when claiming has ended. */
    method LookAhead(batch: Batch, context: Context, world: World, ghost capacity: nat)
      returns (batches: seq<Batch>, contexts: seq<Context>)
      requires Valid() && !over && current == Some(batch) && batch.id !in cached
      requires forall request | world.fits(request) :: |request| <= capacity
      modifies this`calls, this`exhausted, this`claimError, this`due, this`errorAt, this`overtaken, this`pending
      ensures Accounts(pending) && Collects(world, batches, contexts, old(calls), old(End()), old(pending))
      ensures batches[0] == batch && contexts[0] == context
      ensures claimError == old(claimError) || batches[1..] == pending
    {
      hide Balanced, Answers, Accounts, Collected, AllKeys, Joins, Ordered, Batches, Between, Claimed;
      NoWaiting(batch);
      CollectedFirst(world, batch, context);
      batches, contexts := [batch], [context];
      var identities := batch.keys;
      assert batches[1..] + pending == pending;
      NothingClaimed(script, calls, End(), pending);
      var stop := false;
      while !stop
        invariant Looking(world, batches, contexts, identities, old(calls), old(End()), old(pending))
        invariant [batch] <= batches && [context] <= contexts && |batches| <= capacity + 1
        invariant !stop ==>
          claimError == old(claimError) && (old(calls) < calls ==> pending == [] && script(calls - 1).Got?)
        invariant claimError == old(claimError) || pending == []
        invariant stop ==> Stops(script, world, batches, pending, old(calls), calls, exhausted)
        decreases !stop, capacity + 1 - |batches|
      {
        stop, batches, contexts, identities :=
          LookOnce(world, batches, contexts, identities, old(calls), old(End()), old(pending));
      }
      assert (batches[1..] + pending)[|batches| - 1..] == pending;
      CollectedSizes(world, batches, contexts);
      pending := batches[1..] + pending;
    }

    // A batch without a cached decision is only worked on while no claim error is waiting.
    lemma NoWaiting(batch: Batch)
      requires Valid() && !over && current == Some(batch) && batch.id !in cached
      ensures noReset && noRaise ==> claimError.None?
      ensures Accounts(pending)
    {
    }

    // The ids that the cache is keyed by tell the batches at hand apart.
    lemma IdsApart(batch: Batch)
      requires Valid() && DistinctIds(script) && batch in delivered
      ensures OneIdEach(pending) && forall b | b in pending :: b.id != batch.id
    {
      ClaimedIds(script, calls);
      assert multiset(delivered + pending) == multiset(Batches(Answers(script, calls)));
      PermutedIds(delivered + pending, Batches(Answers(script, calls)));
      QueueIds(delivered, pending, batch);
    }

    // The outcomes of one request, each beside the context that was sent for its batch.
    method Remember(batches: seq<Batch>, contexts: seq<Context>, answer: nat -> Outcome)
      requires |contexts| == |batches| && OneIdEach(batches)
      requires forall id | id in cached :: (id, cached[id].0, cached[id].1) in produced
      modifies this`cached, this`produced
      ensures forall id | id in cached :: (id, cached[id].0, cached[id].1) in produced
      ensures forall k | 0 <= k < |batches| ::
        batches[k].id in cached && cached[batches[k].id] == (contexts[k], answer(k))
      ensures old(produced) <= produced
      ensures forall id | id in old(cached) && (forall b | b in batches :: b.id != id) ::
        id in cached && cached[id] == old(cached)[id]
    {
      for k := 0 to |batches|
        invariant forall id | id in cached :: (id, cached[id].0, cached[id].1) in produced
        invariant forall l | 0 <= l < k :: batches[l].id in cached && cached[batches[l].id] == (contexts[l], answer(l))
        invariant old(produced) <= produced
        invariant forall id | id in old(cached) && (forall b | b in batches :: b.id != id) ::
          id in cached && cached[id] == old(cached)[id]
      {
        cached := cached[batches[k].id := (contexts[k], answer(k))];
        produced := produced + {(batches[k].id, contexts[k], answer(k))};
      }
    }

    method ServeCached(batch: Batch, context: Context) returns (served: Served)
      requires Valid() && !over && current == Some(batch) && DistinctIds(script) && batch.id in cached
      modifies this`cached, this`current
      ensures Valid() && current == None && cached == old(cached) - {batch.id}
      ensures served == Served(if old(cached)[batch.id].0 == context then Some(old(cached)[batch.id].1) else None)
    {
      hide Balanced, Accounts;
      IdsApart(batch);
      var (previous, outcome) := cached[batch.id];
      served := Served(if previous == context then Some(outcome) else None);
      cached, current := cached - {batch.id}, None;
    }

    // The decisions for the followers of a request wait in the cache.
    ghost predicate Waiting(request: seq<Batch>, contexts: seq<Context>, answer: nat -> Outcome)
      requires |contexts| == |request|
      reads this`cached
    {
      forall k | 1 <= k < |request| :: request[k].id in cached && cached[request[k].id] == (contexts[k], answer(k))
    }

    // What a request comes to: nothing for one group alone, else its first outcome.
    ghost predicate ServedBy(world: World, request: seq<Batch>, contexts: seq<Context>, served: Served)
      requires |contexts| == |request|
      reads this`cached
    {
      if |request| == 1 then served == Served(None)
      else match world.compare(request, contexts)
        case None => served == Raised
        case Some(answer) => served == Served(Some(answer(0))) && Waiting(request, contexts, answer)
    }

    /** A prefetched outcome.  It is only ever one that was produced for this batch with
        exactly this context; a request holds the batch and a prefix of the queue, with
        pairwise disjoint identities; and the queue grows by what was claimed. */
    method Outcome(batch: Batch, context: Context, world: World, ghost capacity: nat)
      returns (served: Served, ghost request: seq<Batch>, ghost contexts: seq<Context>)
      requires Valid() && !over && current == Some(batch) && DistinctIds(script)
      requires forall batches | world.fits(batches) :: |batches| <= capacity
      modifies this
      ensures Valid() && !over && current == None
      ensures delivered == old(delivered) && surfaced == old(surfaced) && noReset == old(noReset)
      ensures served.Served? || claimError.None? ==> noRaise == old(noRaise)
      ensures served.Served? && served.outcome.Some? ==> (batch.id, context, served.outcome.value) in produced
      ensures batch.id in old(cached) ==>
        && calls == old(calls) && pending == old(pending) && End() == old(End()) && cached == old(cached) - {batch.id}
        && served == Served(if old(cached)[batch.id].0 == context then Some(old(cached)[batch.id].1) else None)
      ensures batch.id !in old(cached) && !world.usable(batch) ==>
        && calls == old(calls) && pending == old(pending) && End() == old(End()) && cached == old(cached)
        && served == Raised
      ensures batch.id !in old(cached) && world.usable(batch) ==>
        && Collects(world, request, contexts, old(calls), old(End()), old(pending))
        && request[0] == batch && contexts[0] == context
        && ServedBy(world, request, contexts, served)
        && (served == Raised || |request| == 1 ==> cached == old(cached))
    {
      hide Balanced, Accounts, Collected, Joins, Claimed, Stops, Ordered, ServedBy, DistinctIds, OneIdEach, Answers;
      request, contexts := [], [];
      if batch.id in cached {
        served := ServeCached(batch, context);
        return;
      }
      if !world.usable(batch) {
        current := None;
        return Raised, [], [];
      }
      IdsBefore(batch);
      var batches, loaded := LookAhead(batch, context, world, capacity);
      CollectedSizes(world, batches, loaded);
      ClaimedApart(batch, batches);
      request, contexts := batches, loaded;
      served := CompareRequest(batch, batches, loaded, world);
    }

    // Compares what the look-ahead has collected, unless that is the batch alone.
    method CompareRequest(batch: Batch, batches: seq<Batch>, contexts: seq<Context>, world: World)
      returns (served: Served)
      requires Accounts(pending) && !over && current == Some(batch)
      requires forall id | id in cached :: (id, cached[id].0, cached[id].1) in produced
      requires |contexts| == |batches| > 0 && batches[0] == batch && OneIdEach(batches) && batch.id !in cached
      requires noReset && noRaise && claimError.Some? ==> batches[1..] == pending
      modifies this`cached, this`produced, this`noRaise, this`current
      ensures Valid() && current == None && (served.Served? || claimError.None? ==> noRaise == old(noRaise))
      ensures served.Served? && served.outcome.Some? ==> (batch.id, contexts[0], served.outcome.value) in produced
      ensures ServedBy(world, batches, contexts, served)
      ensures served == Raised || |batches| == 1 ==> cached == old(cached)
    {
      hide Balanced, Accounts, Ordered;
      if |batches| == 1 {
        current := None;
        return Served(None);
      }
      var answer := world.compare(batches, contexts);
      if answer.None? {
        Disturb();
        return Raised;
      }
      Remember(batches, contexts, answer.value);
      served := Served(Some(cached[batch.id].1));
      cached, current := cached - {batch.id}, None;
      FollowersWait(batch, batches);
    }

    lemma FollowersWait(batch: Batch, batches: seq<Batch>)
      requires OneIdEach(batches) && batches != [] && batches[0] == batch
      ensures forall k | 1 <= k < |batches| :: batches[k].id != batch.id
      ensures forall b | b in batches[1..] :: exists k :: 1 <= k < |batches| && batches[k] == b
    {
      forall b | b in batches[1..] ensures exists k :: 1 <= k < |batches| && batches[k] == b {
        var k :| 0 <= k < |batches| - 1 && batches[1..][k] == b;
        assert batches[k + 1] == b;
      }
    }

    lemma IdsBefore(batch: Batch)
      requires Valid() && current == Some(batch)
      ensures batch in delivered && (noReset && noRaise && !over && claimError.Some? ==> batch.id in cached)
    {
    }

    lemma ClaimedApart(batch: Batch, batches: seq<Batch>)
      requires Accounts(pending) && DistinctIds(script) && batch in delivered
      requires batches != [] && batches[0] == batch && batches[1..] <= pending
      ensures OneIdEach(batches)
    {
      ClaimedIds(script, calls);
      assert multiset(delivered + pending) == multiset(Batches(Answers(script, calls)));
      PermutedIds(delivered + pending, Batches(Answers(script, calls)));
      QueueIds(delivered, pending, batch);
      forall i, j | 0 <= i < j < |batches| ensures batches[i].id != batches[j].id {
        assert batches[j] == batches[1..][j - 1] == pending[j - 1];
        if i > 0 { assert batches[i] == batches[1..][i - 1] == pending[i - 1]; }
      }
    }

    // A comparison error beyond recovery leaves the queue without its decisions.
    method Disturb()
      requires Accounts(pending) && !over
      requires forall id | id in cached :: (id, cached[id].0, cached[id].1) in produced
      modifies this`noRaise, this`current
      ensures Valid() && current == None && (claimError.None? ==> noRaise == old(noRaise))
    {
      hide Balanced, Ordered, Answers, Gots;
      current := None;
      if claimError.Some? {
        noRaise := false;
      }
    }

    /** After a reset the earliest batch is claimed again and comes first, and no decision
        of before is used. */
    method AfterSubjectResolutionReset() returns (failed: Option<Error>)
      requires Valid() && !over
      modifies this
      ensures Valid() && !over && cached == map[] && claimError.None? && calls == old(calls) + 1
      ensures exhausted == script(old(calls)).Ended?
      ensures delivered == old(delivered) && surfaced == old(surfaced)
      ensures pending == (if script(old(calls)).Got? then [script(old(calls)).batch] else []) + old(pending)
      ensures failed == if script(old(calls)).Broke? then Some(script(old(calls)).error) else None
    {
      hide Balanced, Answers, Valid, Accounts;
      ForgetDecisions();
      var a := ClaimHead();
      failed := if a.Broke? then Some(a.error) else None;
      ValidAgain();
    }

    // Nothing prefetched counts any more, and claiming may go on.
    method ForgetDecisions()
      requires Valid() && !over
      modifies this`exhausted, this`claimError, this`cached, this`noReset, this`current
      ensures Accounts(pending) && !noReset && !exhausted && claimError.None? && cached == map[] && current.None?
    {
      hide Balanced, Answers;
      EnterBalances(script, calls, delivered, pending, noReset);
      exhausted, claimError, cached := false, None, map[];
      noReset, current := false, None;
    }

    // A batch that is claimed after a reset goes to the head of the queue.
    method ClaimHead() returns (a: Answer)
      requires Accounts(pending) && !over && !noReset && !exhausted && claimError.None?
      modifies this`calls, this`exhausted, this`pending
      ensures Accounts(pending) && a == script(old(calls)) && calls == old(calls) + 1 && exhausted == a.Ended?
      ensures pending == (if a.Got? then [a.batch] else []) + old(pending)
    {
      hide Balanced, Answers;
      EnterBalances(script, calls, delivered, pending, noReset);
      a := Claim();
      assert [] + pending == pending;
      if a.Got? {
        pending := [a.batch] + pending;
      }
    }

    lemma ValidAgain()
      requires Accounts(pending) && cached == map[] && current.None? && claimError.None?
      ensures Valid()
    {
    }

    /** Without resets, the batches delivered and then the queue are what was claimed, in
        order, whatever goes wrong. */
    lemma ClaimsInOrder()
      requires Valid() && noReset
      ensures delivered + pending == Batches(Answers(script, calls))
    {
    }

    /** The window refines the plain loop: without resets, what the pipeline has seen, the
        queue and the waiting end are answer for answer what claiming one batch at a time
        returns, if and only if no claim overtook a waiting claim error.  That takes a
        comparison, of a request that had met the error, that fails beyond recovery. */
    lemma RefinesPlainLoop()
      requires Valid() && noReset
      ensures surfaced + Gots(pending) + Tail(End()) <= Answers(script, calls) <==> InTurn()
      ensures noRaise ==> InTurn()
      ensures InTurn() ==> forall k: nat | k < |surfaced| :: k < calls && surfaced[k] == script(k)
      ensures InTurn() ==> forall k: nat | k < |pending| :: script(|surfaced| + k) == Got(pending[k])
    {
      hide Ordered;
      var answers, line := Answers(script, calls), surfaced + Gots(pending);
      OrderedAgrees(script, calls, line, End());
      if InTurn() {
        assert line <= answers;
        forall k: nat | k < |surfaced| ensures k < calls && surfaced[k] == script(k) { assert answers[k] == line[k]; }
        forall k: nat | k < |pending| ensures script(|surfaced| + k) == Got(pending[k]) {
          assert answers[|surfaced| + k] == line[|surfaced| + k] == Gots(pending)[k];
        }
      }
    }
  }

  // ----- a run in which a claim error is overtaken ---------------------------------------

  // Two batches, an error, a third batch, and the end.
  function ErrorBetween(first: Batch, second: Batch, error: Error, third: Batch): Script {
    k => if k == 0 then Got(first) else if k == 1 then Got(second) else if k == 2 then Broke(error)
      else if k == 3 then Got(third) else Ended
  }

  // Every batch may join, two at a time, and every comparison fails beyond recovery.
  function Failing(context: Context): World {
    World(b => true, b => Some(context), request => |request| <= 2, (request, contexts) => None)
  }

  ghost predicate Apart(first: Batch, second: Batch, third: Batch) {
    && first.id != second.id && first.id != third.id && second.id != third.id
    && first.keys !! second.keys && second.keys !! third.keys
    && first.origin == second.origin == third.origin
  }

  lemma MeetsTheError(first: Batch, second: Batch, error: Error, third: Batch, context: Context, request: seq<Batch>,
                      was: Ends, to: nat, now: Ends, queue: seq<Batch>)
    requires Apart(first, second, third) && !was.exhausted && request != [] && request[0] == first
      && request[1..] <= queue
    requires Claimed(ErrorBetween(first, second, error, third), 1, was, [], to, now, queue)
    requires Stops(ErrorBetween(first, second, error, third), Failing(context), request, queue[|request| - 1..], 1, to,
                   now.exhausted)
    ensures to == 3 && queue == [second] && |request| == 2 && now.claimError == Some(error) && !now.exhausted
  {
    var script := ErrorBetween(first, second, error, third);
    BetweenMore(script, 1, 1);
    BetweenMore(script, 1, 2);
    assert Batches(Between(script, 1, 1)) == [];
    ClaimsEndThere(script, 1, was, [], to, now, queue, 2);
    assert Joins(Failing(context), [first], second);
    assert |request| == 1 ==> request == [first];
  }

  lemma ClaimsEndThere(script: Script, from: nat, was: Ends, before: seq<Batch>, to: nat, now: Ends, queue: seq<Batch>,
                       k: nat)
    requires Claimed(script, from, was, before, to, now, queue) && from <= k && !script(k).Got?
    ensures to <= k + 1
  {
  }

  lemma ClaimsPastTheError(first: Batch, second: Batch, error: Error, third: Batch, context: Context,
                           request: seq<Batch>, was: Ends, to: nat, now: Ends, queue: seq<Batch>)
    requires !was.exhausted && request != [] && request[1..] <= queue
    requires Claimed(ErrorBetween(first, second, error, third), 3, was, [], to, now, queue)
    requires Stops(ErrorBetween(first, second, error, third), Failing(context), request, queue[|request| - 1..], 3, to,
                   now.exhausted)
    ensures queue == [third] && (now.overtaken <== was.claimError.Some?)
  {
    var script := ErrorBetween(first, second, error, third);
    BetweenMore(script, 3, 3);
    BetweenMore(script, 3, 4);
    assert Batches(Between(script, 3, 3)) == [];
    ClaimsEndThere(script, 3, was, [], to, now, queue, 4);
  }

  lemma DistinctBetween(first: Batch, second: Batch, error: Error, third: Batch)
    requires Apart(first, second, third)
    ensures DistinctIds(ErrorBetween(first, second, error, third)) && first.id != second.id
  {
  }

  lemma ErrorIsBetween(first: Batch, second: Batch, error: Error, third: Batch)
    ensures var script := ErrorBetween(first, second, error, third);
      script(0) == Got(first) && script(2) == Broke(error)
  {
  }

  // The first request collects the first two batches, meets the error, and fails.
  method MeetError(w: ComparisonWindow, first: Batch, second: Batch, error: Error, third: Batch, context: Context)
    requires Apart(first, second, third) && w.script == ErrorBetween(first, second, error, third)
    requires w.Valid() && !w.over && w.current == Some(first)
    requires w.calls == 1 && w.pending == [] && w.cached == map[] && !w.exhausted && w.claimError.None?
    modifies w
    ensures w.Valid() && !w.over && w.noReset == old(w.noReset) && w.surfaced == old(w.surfaced)
    ensures w.calls == 3 && w.pending == [second] && w.cached == map[] && !w.exhausted && w.claimError == Some(error)
  {
    hide Collected, Claimed, Stops, Ordered, Balanced, Answers, Apart, DistinctIds, ErrorBetween;
    DistinctBetween(first, second, error, third);
    ghost var was := w.End();
    var world := Failing(context);
    assert first.id !in w.cached && world.usable(first);
    var served;
    ghost var request, contexts;
    served, request, contexts := w.Outcome(first, context, world, 2);
    assert w.Collects(world, request, contexts, 1, was, []);
    CollectedSizes(world, request, contexts);
    MeetsTheError(first, second, error, third, context, request, was, w.calls, w.End(), w.pending);
    assert world.compare(request, contexts).None?;
  }

  // The second request claims again, past the error that is waiting.
  method ClaimPast(w: ComparisonWindow, first: Batch, second: Batch, error: Error, third: Batch, context: Context)
    requires Apart(first, second, third) && w.script == ErrorBetween(first, second, error, third)
    requires w.Valid() && !w.over && w.current == Some(second)
    requires w.calls == 3 && w.pending == [] && w.cached == map[] && !w.exhausted && w.claimError == Some(error)
    modifies w
    ensures w.Valid() && !w.over && w.noReset == old(w.noReset) && w.surfaced == old(w.surfaced)
    ensures w.pending == [third] && w.overtaken
  {
    hide Collected, Claimed, Stops, Ordered, Balanced, Answers, Apart, DistinctIds, ErrorBetween;
    DistinctBetween(first, second, error, third);
    ghost var was := w.End();
    var world := Failing(context);
    assert second.id !in w.cached && world.usable(second);
    var served;
    ghost var request, contexts;
    served, request, contexts := w.Outcome(second, context, world, 2);
    assert w.Collects(world, request, contexts, 3, was, []);
    CollectedSizes(world, request, contexts);
    ClaimsPastTheError(first, second, error, third, context, request, was, w.calls, w.End(), w.pending);
  }

  /** The window can serve a batch in the place of an error: the request of the first two
      batches meets the error and fails, and the look-ahead for the second one claims again,
      so that the third batch surfaces where the plain loop has the error. */
  method ErrorIsOvertaken(first: Batch, second: Batch, error: Error, third: Batch, context: Context)
    returns (w: ComparisonWindow)
    requires Apart(first, second, third)
    ensures fresh(w) && w.Valid() && w.noReset && !w.InTurn() && w.script == ErrorBetween(first, second, error, third)
    ensures w.surfaced == [Got(first), Got(second), Got(third)] && w.surfaced[2] != w.script(2) == Broke(error)
  {
    hide ComparisonWindow.Valid, Apart, ErrorBetween;
    ErrorIsBetween(first, second, error, third);
    w := new ComparisonWindow(ErrorBetween(first, second, error, third));
    var a := w.ClaimNext();
    MeetError(w, first, second, error, third, context);
    a := w.ClaimNext();
    ClaimPast(w, first, second, error, third, context);
    a := w.ClaimNext();
  }
}
